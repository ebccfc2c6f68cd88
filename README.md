# Microsoft Teams incoming-webhook message, modelled in Dafny

This project models `MicrosoftTeamsIncomingWebhookRuby::Message`. The class is the whole core of a small Ruby
client. The client collects the fields of a chat message in an open field bag and refuses a bag without a `url`
and a `text`. It posts the bag as JSON to the webhook URL once, then reports the HTTP answer as success (2xx or
3xx) or as a `FailedRequest`.

The model is split into modules:

- `Wrappers`: `Option` (Ruby's nil) and `Result` (a value or a raised error).
- `FieldBags`: the OpenStruct behind `builder`. It is an insertion-ordered sequence of `(name, value)` pairs
  with unique names, where the value is a string or nil.
  - Pure functions `Lookup`, `Assign`, `Remove` and `AssignAll` give its meaning, with lemmas relating them.
  - The class `FieldBag` is the object callers change in place.
- `Errors`: the `GenericError < StandardError` hierarchy with its two subclasses. It also holds the errors
  `InvalidMessage(field)` and `FailedRequest(code)` and the exact message texts. `ParseText` reads a text back,
  which shows that each text names its field or code.
- `Decimal`: how `#{code}` prints an integer, with its inverse.
- `HttpStatus`: `success?`, and its relation to the status classes of section 15 of RFC 9110.
- `Messages`: the validation specification (`FirstBlank`, `Validate`), the `Message` class and the `Webhook`
  class.
  - `Message` has a `const builder`: the reference is fixed and the contents are mutable.
  - `Webhook` stands in for the remote endpoint. It is given the request and answers with a response.

Two behaviours of the code are represented differently, or not claimed:

- A nil response is not classified as a failure. Line 58 of `message.rb` would fail on a nil code, so the model
  takes the status code as a plain integer.
- Replacing `builder` is refused differently. In Ruby, `attr_reader` defines no writer, so `message.builder = x`
  raises NoMethodError at run time. In the model `builder` is a `const`, so such an assignment cannot be written
  at all.

## Model

| member | source | states |
|---|---|---|
| `FieldBags.Lookup` | lib/microsoft_teams_incoming_webhook_ruby/message.rb:36 | reading a field gives None exactly when the name is not in the bag |
| `FieldBags.LookupAt` | lib/microsoft_teams_incoming_webhook_ruby/message.rb:36 | in a bag with unique names, reading any entry's name gives that entry's value |
| `FieldBags.Assign` | lib/microsoft_teams_incoming_webhook_ruby/message.rb:18-19 | after a field assignment the field reads back as the assigned value |
| `FieldBags.AssignKeys` | lib/microsoft_teams_incoming_webhook_ruby/message.rb:18-19 | assigning an existing name keeps the names and their order; a new name is appended last |
| `FieldBags.AssignOther` | lib/microsoft_teams_incoming_webhook_ruby/message.rb:18-19 | assigning one field leaves every other field's value (or absence) as it was |
| `FieldBags.Remove` | lib/microsoft_teams_incoming_webhook_ruby/message.rb:15 | after deleting a field it is absent, and deleting a name that is not there changes nothing |
| `FieldBags.RemoveKeys` | lib/microsoft_teams_incoming_webhook_ruby/message.rb:15 | after deleting a field, a name is present exactly when it was before and is not the deleted one |
| `FieldBags.RemoveKeepsOrder` | lib/microsoft_teams_incoming_webhook_ruby/message.rb:15 | in a bag with unique names, deleting a field takes out exactly its entry and the other fields keep their order, which is the order the JSON body lists them in |
| `FieldBags.RemoveOther` | lib/microsoft_teams_incoming_webhook_ruby/message.rb:15 | deleting one field leaves every other field's value (or absence) as it was |
| `FieldBags.AssignKeepsUnique` | lib/microsoft_teams_incoming_webhook_ruby/message.rb:18-19 | assigning a field never creates a second entry with the same name |
| `FieldBags.RemoveKeepsUnique` | lib/microsoft_teams_incoming_webhook_ruby/message.rb:15 | deleting a field keeps names unique |
| `FieldBags.AssignAllDistinct` | lib/microsoft_teams_incoming_webhook_ruby/message.rb:17-19 | a block that sets distinct fields leaves a bag holding exactly those fields, with those values, in that order |
| `FieldBags.AssignAll` | lib/microsoft_teams_incoming_webhook_ruby/message.rb:19 | running the block's assignments in order on a bag with unique names leaves its names unique |
| `FieldBags.AssignAllLookup` | lib/microsoft_teams_incoming_webhook_ruby/message.rb:19 | after the block's assignments every name holds the value last assigned to it, and a name the block never assigns keeps its earlier value |
| `FieldBags.FieldBag.constructor` | lib/microsoft_teams_incoming_webhook_ruby/message.rb:18 | a new bag is empty |
| `FieldBags.FieldBag.Get` | lib/microsoft_teams_incoming_webhook_ruby/message.rb:36 | `builder[field]` is the stored string when there is one, and nil when the field is missing or holds nil |
| `FieldBags.FieldBag.Set` | lib/microsoft_teams_incoming_webhook_ruby/message.rb:15 | assigning through the exposed bag changes its contents as `Assign` says and keeps names unique |
| `FieldBags.FieldBag.Delete` | lib/microsoft_teams_incoming_webhook_ruby/message.rb:15 | deleting through the exposed bag changes its contents as `Remove` says and reports whether the field was there |
| `Errors.Superclass` | lib/microsoft_teams_incoming_webhook_ruby/message.rb:10-12 | gives the declared parent of each error class; its contract states only that each parent is strictly closer to StandardError, so every chain of parents ends there (the subclass facts are stated by `Errors.FailureHierarchy`) |
| `Errors.FailureHierarchy` | lib/microsoft_teams_incoming_webhook_ruby/message.rb:10-12 | InvalidMessage and FailedRequest are both GenericErrors and StandardErrors, GenericError is neither of them, and neither is a kind of the other |
| `Errors.Text` | lib/microsoft_teams_incoming_webhook_ruby/message.rb:40-53 | an InvalidMessage text starts with a quote and ends with `' must be defined in Message`; a FailedRequest text starts with `The message failed to be sent (HTTP Code ` and ends with `)` |
| `Errors.TextRoundTrip` | lib/microsoft_teams_incoming_webhook_ruby/message.rb:40-53 | the text `'<field>' must be defined in Message` or `The message failed to be sent (HTTP Code <code>)` reads back as exactly the error it was made from |
| `Errors.TextInjective` | lib/microsoft_teams_incoming_webhook_ruby/message.rb:40-41 | two different errors never carry the same message |
| `Decimal.IntToString` | lib/microsoft_teams_incoming_webhook_ruby/message.rb:53 | the interpolated code is a string of digits, with a leading minus sign only for a negative code |
| `Decimal.IntToStringRoundTrip` | lib/microsoft_teams_incoming_webhook_ruby/message.rb:53 | the code interpolated into the failure text is printed without loss: parsing the digits gives the code back |
| `HttpStatus.IsSuccess` | lib/microsoft_teams_incoming_webhook_ruby/message.rb:56-61 | `success?` holds exactly for codes from 200 to 399 |
| `HttpStatus.StatusClass` | lib/microsoft_teams_incoming_webhook_ruby/message.rb:58-59 | a code from 100 to 599 has a class from 1 to 5 whose hundred holds it; other codes have none |
| `HttpStatus.SuccessIsClass2Or3` | lib/microsoft_teams_incoming_webhook_ruby/message.rb:58-60 | success is exactly membership of the Successful (2xx) or Redirection (3xx) class of RFC 9110 |
| `HttpStatus.FailureClasses` | lib/microsoft_teams_incoming_webhook_ruby/message.rb:56-61 | 1xx, 4xx, 5xx and codes outside 100..599 fail; 100, 400 and 500 fail and 200 and 300 succeed |
| `Messages.FirstBlank` | lib/microsoft_teams_incoming_webhook_ruby/message.rb:35-36 | finds the first listed field that is missing, nil or empty: it is blank, every earlier one is not, and None means none is blank |
| `Messages.Validate` | lib/microsoft_teams_incoming_webhook_ruby/message.rb:34-41 | what validation raises: an InvalidMessage naming a required field that is blank, or nothing when every required field is filled |
| `Messages.BlankIffNotFilled` | lib/microsoft_teams_incoming_webhook_ruby/message.rb:36 | characterises `Blank`, the `nil?` or `empty?` test: it holds exactly when the field does not hold a non-empty string |
| `Messages.ValidateAccepts` | lib/microsoft_teams_incoming_webhook_ruby/message.rb:32-38 | validation passes exactly when url and text both hold non-empty strings |
| `Messages.ValidateUrlFirst` | lib/microsoft_teams_incoming_webhook_ruby/message.rb:32-37 | a blank url is reported as url whatever text holds; text is reported only when url is filled |
| `Messages.ValidateNamesBlankField` | lib/microsoft_teams_incoming_webhook_ruby/message.rb:40-41 | a failed validation raises an InvalidMessage, a GenericError, naming a required field that is blank, with text `'<field>' must be defined in Message` |
| `Messages.AssignRequiredField` | lib/microsoft_teams_incoming_webhook_ruby/message.rb:15 | after assigning a required field it is filled exactly when the value is a non-empty string; assigning nil or "" makes the message invalid |
| `Messages.RequestFor` | lib/microsoft_teams_incoming_webhook_ruby/message.rb:44-49 | the request goes to the url field's value with content type application/json, and its body is exactly the current bag |
| `Messages.CheckFailureFor` | lib/microsoft_teams_incoming_webhook_ruby/message.rb:52-54 | no error exactly for codes 200..399; otherwise a FailedRequest whose text gives back the response's code |
| `Messages.Webhook.Post` | lib/microsoft_teams_incoming_webhook_ruby/message.rb:49 | one POST: the request is appended to the endpoint's record and its answer is returned |
| `Messages.Message.constructor` | lib/microsoft_teams_incoming_webhook_ruby/message.rb:17-19 | a fresh bag is made and receives the caller's assignments in order |
| `Messages.Message.Create` | lib/microsoft_teams_incoming_webhook_ruby/message.rb:17-21 | construction fails with the validation error of the populated bag, and otherwise returns a message whose bag holds non-empty url and text |
| `Messages.Message.ValidateBuilder` | lib/microsoft_teams_incoming_webhook_ruby/message.rb:34-38 | the loop raises what `Validate` says; it examines the required fields in order, stops at the first blank one, and so never looks at text when url is blank |
| `Messages.Message.Send` | lib/microsoft_teams_incoming_webhook_ruby/message.rb:23-28 | an invalid bag gives InvalidMessage and nothing is posted; a valid one is posted once with the current bag as body; a 2xx/3xx answer is returned unchanged and any other gives FailedRequest with its code; the bag is not changed |

## Left out

- Transport is not modelled. This covers `URI.parse`, splitting the URL into host, port and path, `Net::HTTP`,
  TLS with certificate verification turned off, and the `Content-Type` header on the wire. The request holds
  the whole url value, the content type and the bag. The code posts only the url's path to its host and port,
  so a query string or fragment in the url is never sent, and it always uses TLS whatever the scheme. `Webhook` is given that request and answers with any
  function of it and of the number of earlier requests.
- Transport errors are not modelled. A malformed url makes `URI.parse` raise `URI::InvalidURIError`, and a
  connection, TLS or timeout failure makes `Net::HTTP#post` raise. These errors pass through `send` unchanged,
  not as `FailedRequest`. The model's `Webhook.Post` always answers.
- The JSON text is not modelled. The body is the ordered bag itself, which is what `to_h.to_json` serialises
  (nil becomes JSON null).
- The status code is an integer. `Net::HTTP` reports it as a string, which `success?` converts with `to_i`. The
  failure text therefore prints the integer's decimal form, not the raw string.
- A nil response is not modelled. `success?` would fault on its comparison, so no such case is claimed.
- Field values are strings or nil. OpenStruct accepts any Ruby object, and `empty?` on other objects (numbers,
  arrays) raises or behaves differently.
- OpenStruct's dynamic attribute methods are not modelled. Reading and writing fields is explicit.
- FieldBags.FieldBag.Delete: reports `found == false` for a missing field and changes nothing, where OpenStruct
  raises NameError.
- The block passed to `new` is modelled as the sequence of field assignments it makes. Calling `new` without a
  block raises LocalJumpError in Ruby; that case is not represented.
- StandardError is the root of the modelled error hierarchy. Ruby's classes above it are outside the model.
