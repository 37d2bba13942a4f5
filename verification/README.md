# perwatch-api core, modelled in Dafny

This project models the request-handling core of the perwatch-api backend:
- the request schemas for creating and updating users and posts;
- the `validate` middleware that runs them before a handler;
- the post and user document schemas, with their setters, validators and JSON view;
- the two services, which read and write the document store;
- the handlers, which turn a service outcome into an HTTP status and a JSON envelope.

Everything is a pure function over immutable data:
- **Store.** The document store is a pair of maps (`Store.Store`).
- **Services.** Every service operation is a transition `Store -> Step<T>`. A step pairs the new store with `Result<T, ErrorKind>`.
- **Errors.** `ErrorKind` is the closed set of errors the services throw. It holds the sentinel messages, the store's validation error and library errors (cast, driver, hashing). The handlers compare `error.name` and `error.message` with fixed texts, and the model keeps that comparison on texts.
- **Handlers.** The handlers are functions from an outcome to `Response(status, envelope)`.
- **Routes.** `Endpoints` composes the routes that carry a body: middleware, body decoding, service, handler.

Modules, in dependency order:
- `Wrappers`, `Text`, `Ids`, `Json`, `Documents`, `Messages`: helpers.
- `EmailPattern`: the stored-email regular expression as the language it denotes.
- `Validation`: the schema engine with the options the middleware passes.
- `PostValidation` and `UserValidation`: the four request schemas.
- `PostModel` and `UserModel`: the document schemas.
- `Store`, `PostService`, `UserService`: the store and the services.
- `Http`, `ValidateMiddleware`, `PostController`, `UserController`, `Endpoints`: the HTTP side.

The model follows the code as written, including these behaviours:
- A created user's password is stored as submitted. There is no hashing hook on create; only the update path hashes (src/services/user.service.ts:35 and 63-64).
- The create response carries the document as written, password included (src/controllers/user.controller.ts:51-99).
- Once a user has changed their password at least once, so that it is stored as a hash, resubmitting the current password on update is answered 500. The service throws the "same password" text of src/constants/messages.ts:17, but the handler looks only for the "password comparison error" text (src/controllers/user.controller.ts:113-157). A user whose password is still the plain text written at creation gets 200 instead: the comparison with a non-hash answers false (src/services/user.service.ts:54-58), and the password is then hashed.
- A post with title `Hi`, content `short` and no tags is refused with three entries: title, content and tags. `short` is shorter than the ten characters content needs.
- A malformed `:id` reaches the driver as a cast error, which the read, update and delete handlers answer with 500. Path parameters are outside the model; see Left out.

## Model

| member | source | states |
|---|---|---|
| Json.Lookup | src/middlewares/validate.middleware.ts:12-15 | a key is absent exactly when no entry of the body has it, and a found value is the value of some entry with that key |
| Validation.Resolve | src/validations/user.validation.ts:5-13 | a violation's text is the library default exactly when neither the key nor the object overrides that code |
| Validation.CheckString | src/validations/post.validation.ts:6-15 | a string gets no violation exactly when every rule passes; each failing rule is reported, at the key's path, at most one per rule |
| Validation.CheckItems | src/validations/post.validation.ts:24-32 | array items are checked one by one: no violation exactly when every item is a non-empty string; each violation sits at `key.index` for an index in range |
| Validation.CheckValue | src/validations/post.validation.ts:5-41 | a key's value gets no violation exactly when the independent acceptance predicate `Accepts` holds (absent and optional, a non-empty string passing every rule, or a long-enough array of non-empty strings) |
| Validation.KeyViolations | src/middlewares/validate.middleware.ts:12-15 | the declared keys give no violation exactly when every declared key's value is acceptable |
| Validation.KeyViolationsMembers | src/middlewares/validate.middleware.ts:12-15 | the declared keys' violations are exactly the union of each key's own violations |
| Validation.UnknownViolations | src/middlewares/validate.middleware.ts:14 | no unknown-key violation exactly when every body key is declared; each undeclared key is reported as `object.unknown` at its own path, and nothing else is |
| Validation.ValidateBody | src/middlewares/validate.middleware.ts:12-15 | a body has no violation exactly when every declared key is acceptable, every body key is declared and the body has at least the minimum number of keys |
| Validation.KeyViolationReported | src/middlewares/validate.middleware.ts:12-13 | with `abortEarly: false`, every violation of every declared key is reported, not only the first |
| Validation.UnknownKeyReported | src/middlewares/validate.middleware.ts:14 | with `allowUnknown: false`, every key the schema does not declare is reported |
| Validation.ValidateBodySound | src/middlewares/validate.middleware.ts:12-15 | nothing else is reported: each violation belongs to a declared key, names an undeclared key, or is the key-count violation |
| Validation.KeyViolationsOfFour | src/validations/post.validation.ts:5-41 | a four-key schema's violations are the keys' own violations in declaration order |
| PostValidation.TitleBounds | src/validations/post.validation.ts:6-15 | a title is accepted exactly when it is a string of 3 to 100 characters, by both the create schema and the update schema (lines 43-49); it is required on create and optional on update |
| PostValidation.ContentBounds | src/validations/post.validation.ts:16-23 | content is accepted exactly when it is a string of at least 10 characters, on create and on update (lines 50-54) |
| PostValidation.TagsShape | src/validations/post.validation.ts:24-32 | tags are accepted exactly when they are an array of at least one non-empty string; the update schema (lines 55-61) accepts the same values |
| PostValidation.AuthorFormat | src/validations/post.validation.ts:33-40 | an author is accepted exactly when it is 24 hexadecimal digits in either case, and then it casts to an identifier |
| PostValidation.DecodeNewPost | src/validations/post.validation.ts:5-41 | a body reads as a create request exactly when title, content and author are strings and tags an array of strings, and then carries exactly those values |
| PostValidation.DecodeChanges | src/validations/post.validation.ts:42-65 | an update request carries exactly the string fields and the tag array the body holds |
| PostValidation.CreateNeedsEveryKey | src/validations/post.validation.ts:5-41 | an accepted create body has all four keys; a missing title is reported with the title-required text |
| PostValidation.AcceptedCreateDecodes | src/validations/post.validation.ts:5-41 | an accepted create body reads as a create request whose author is a valid identifier and whose tags are not empty |
| PostValidation.UpdateNeedsOneField | src/validations/post.validation.ts:62-65 | an empty update body gets exactly one violation: the "at least one field" text at the object's own path |
| PostValidation.UpdateRejectsAuthor | src/validations/post.validation.ts:42-62 | an update body that carries `author` is refused with an unknown-key violation |
| PostValidation.UpdateAcceptsSubsets | src/validations/post.validation.ts:42-65 | any non-empty body made only of title, content and tags, each within its bounds, is accepted; it reads as exactly those changes |
| PostValidation.ShortCreateBody | src/validations/post.validation.ts:5-41 | the body with title `Hi`, content `short`, no tags and a valid author gets exactly three violations, in key order: title too short, content too short, tags empty |
| UserValidation.NameBounds | src/validations/user.validation.ts:22-29 | a name is accepted exactly when it is a string of at least 3 characters, on create and on update (lines 42-46) |
| UserValidation.PasswordBounds | src/validations/user.validation.ts:14-21 | a password is accepted on create exactly when it has at least 6 characters, and on update (lines 37-41) exactly when it has at least 3 |
| UserValidation.ShortPasswordOnlyOnUpdate | src/validations/user.validation.ts:37-41 | a password of 3 to 5 characters passes the update schema and fails the create schema |
| UserValidation.EmailBounds | src/validations/user.validation.ts:6-13 | an email is accepted exactly when it is a non-empty string of email shape, on create and on update (lines 32-36) |
| UserValidation.DecodeNewUser | src/validations/user.validation.ts:5-30 | a body reads as a create request exactly when email, password and name are strings, and then carries exactly those values |
| UserValidation.DecodeUserChanges | src/validations/user.validation.ts:31-50 | an update request carries exactly the string fields the body holds |
| UserValidation.EmptyStringMessages | src/validations/user.validation.ts:5-30 | on create, an empty string for any of the three keys gets that key's "required" text; on update the library's own `string.empty` text is used |
| UserValidation.CreateNeedsEveryKey | src/validations/user.validation.ts:5-30 | an accepted create body has email, password and name; each missing key is reported with its "required" text |
| UserValidation.AcceptedCreateDecodes | src/validations/user.validation.ts:5-30 | an accepted create body reads as a create request with an email of email shape, a password of at least 6 characters and a name of at least 3 |
| UserValidation.UpdateNeedsOneField | src/validations/user.validation.ts:47-50 | an empty update body gets exactly the "at least one field" violation |
| UserValidation.UpdateRejectsUnknown | src/validations/user.validation.ts:31-50 | an update body with any key other than email, password and name is refused with an unknown-key violation |
| UserValidation.AcceptedUpdateDecodes | src/validations/user.validation.ts:31-50 | an accepted update body is not empty, and reads as exactly the changes its keys carry, each within the update bounds |
| UserValidation.PasswordOnlyBody | src/validations/user.validation.ts:37-41 | a body holding only a password of at least 3 characters passes and changes only the password |
| UserValidation.EmailOnlyBody | src/validations/user.validation.ts:32-36 | a body holding only an email of email shape passes and changes only the email |
| UserValidation.EmailAndPasswordBody | src/validations/user.validation.ts:31-50 | a body holding an email of email shape and a password of at least 3 characters passes and changes exactly those two fields |
| ValidateMiddleware.JoinPath | src/middlewares/validate.middleware.ts:27 | the joined field is empty exactly for the object's own path or a single empty key |
| ValidateMiddleware.FieldNames | src/middlewares/validate.middleware.ts:27 | a key's field is the key itself, an array item's field is `key.index`, and the object's own field is empty |
| ValidateMiddleware.SplitJoin | src/middlewares/validate.middleware.ts:27 | splitting a field at its dots gives back the path's segments, when no key in the path contains a dot |
| ValidateMiddleware.Validate | src/middlewares/validate.middleware.ts:17-34 | the request goes on to its handler exactly when the schema accepts the body; otherwise the answer is 400 with the validation-error text and as many entries as violations |
| ValidateMiddleware.Entries | src/middlewares/validate.middleware.ts:26-29 | one `{ field, message }` entry per violation, in order, the field being the joined path |
| ValidateMiddleware.RejectListsViolations | src/middlewares/validate.middleware.ts:23-30 | a refusal lists every violation as `{ field: joined path, message }`, and lists nothing else |
| Text.Trim | src/models/post.model.ts:8 | `trim()` gives a string with no white space at either end; it is the infix after the leading white space, and all that is cut off is white space |
| Text.TrimIdempotent | src/models/post.model.ts:8 | trimming leaves a trimmed string alone, so trimming twice is trimming once |
| Text.Lower | src/models/user.model.ts:17 | lower-casing keeps the length and leaves no upper-case letter; it changes only upper-case letters |
| Ids.ParseObjectId | src/models/post.model.ts:18-22 | casting a string to an identifier succeeds exactly on 24 hexadecimal digits |
| Ids.ObjectIdRoundTrip | src/models/post.model.ts:18-22 | printing an identifier and casting it back gives the same identifier |
| Ids.FormatObjectId | src/models/post.model.ts:18-22 | an identifier prints as 24 lower-case hexadecimal digits, which `ObjectIdRoundTrip` casts back to it |
| Ids.ParseObjectIdIgnoresCase | src/validations/post.validation.ts:35 | upper- and lower-case spellings of the same digits cast to the same identifier |
| Documents.Shift | src/models/post.model.ts:33-38 | the view shifts a timestamp by exactly 10,800,000 ms, and only when the timestamp is present |
| Documents.Unshift | src/models/post.model.ts:33-38 | moving a shown timestamp back gives one whose shift is the shown timestamp, present or absent |
| Documents.UnshiftShift | src/models/post.model.ts:33-38 | undoing the shift gives back the stored timestamp, present or absent |
| PostModel.TrimTags | src/models/post.model.ts:23-27 | the tag setter trims every element and keeps their number and order |
| PostModel.SetChanges | src/models/post.model.ts:5-27 | the setters keep exactly the supplied fields and trim each of them |
| PostModel.TitleError | src/models/post.model.ts:5-11 | a title fails exactly when it is not 3 to 100 characters long; an empty title fails with the required text |
| PostModel.ContentError | src/models/post.model.ts:12-17 | content fails exactly when it is shorter than 10 characters; empty content fails with the required text |
| PostModel.TagErrors | src/models/post.model.ts:23-27 | each empty tag gets one tags-required error; there is none exactly when no tag is empty |
| PostModel.FieldErrors | src/models/post.model.ts:5-27 | the values about to be written pass exactly when every supplied value meets its bound |
| PostModel.SetValuesAreStorable | src/models/post.model.ts:5-27 | values that pass after the setters satisfy the stored-post constraints: trimmed, within bounds, no empty tag |
| PostModel.ToJson | src/models/post.model.ts:32-42 | the view shows `_id` as `id`, keeps title, content, author and tags, drops `__v`, and moves each present timestamp exactly three hours forward |
| PostModel.FromJson | src/models/post.model.ts:32-42 | reading a view back with a version gives a post of that version whose view is the given one |
| PostModel.JsonRoundTrip | src/models/post.model.ts:32-42 | the JSON view keeps every stored field except `__v`: reading it back with the version restores the post, and the timestamps move by exactly three hours |
| PostModel.JsonInjective | src/models/post.model.ts:39-42 | two posts with the same view differ at most in their version counters |
| EmailPattern.Matches | src/models/user.model.ts:19-24 | the pattern as the language it denotes: a run of word characters, dots and hyphens, `@`, one or more labels each ending in a dot, and a final group of 2 or 3 such characters; `MatchesShape` and the two examples below state what it admits |
| EmailPattern.MatchesShape | src/models/user.model.ts:19-24 | an address the pattern accepts has exactly one `@`, uses only word characters, dots, hyphens and that `@`, and starts and ends with a word character |
| EmailPattern.MatchesIsTrimmed | src/models/user.model.ts:19-24 | an address the pattern accepts has no white space at either end |
| EmailPattern.AcceptsPlainAddress | src/models/user.model.ts:19-24 | `ahmet@example.com` matches the pattern |
| EmailPattern.RejectsLongTld | src/models/user.model.ts:19-24 | `a@b.info` does not match: the final group allows two or three characters |
| UserModel.NormalizeEmail | src/models/user.model.ts:13-18 | the email setters give a trimmed string with no upper-case letter |
| UserModel.NormalizeEmailIdempotent | src/models/user.model.ts:13-18 | normalising twice is normalising once |
| UserModel.NormalEmailIsFixed | src/models/user.model.ts:13-18 | a trimmed, lower-case email is left alone, so a stored email looks itself up |
| UserModel.BcryptKey | src/services/user.service.ts:54-65 | the part of a password bcrypt reads: at most 72 units, the whole password when it is no longer |
| UserModel.HashPassword | src/services/user.service.ts:63-64 | a new hash compares equal to the password it was made from, and to exactly the passwords that share its first 72 units |
| UserModel.ShortPasswordHashIsExact | src/services/user.service.ts:63-64 | below 72 units a hash compares equal to exactly the password it was made from |
| UserModel.LongPasswordsShareHash | src/services/user.service.ts:55-58 | two passwords of at least 72 units that agree on their first 72 are told apart by no hash |
| UserModel.NameError | src/models/user.model.ts:9-12 | a name fails exactly when it is empty |
| UserModel.EmailError | src/models/user.model.ts:13-25 | an email fails exactly when it does not match the pattern; an empty one fails with the required text |
| UserModel.PasswordError | src/models/user.model.ts:26-31 | a stored password fails exactly when it is shorter than 6 characters |
| UserModel.FieldErrors | src/models/user.model.ts:9-31 | the values about to be written pass exactly when every supplied value is storable; at most one error per field |
| UserModel.BcryptCompare | src/services/user.service.ts:54-58 | the comparison says "same" exactly when the stored value is a hash of the candidate; it can fail only on a stored plain text of hash length |
| UserModel.ComparePassword | src/models/user.model.ts:54-61 | `comparePassword` is true exactly when the comparison succeeds with "same", and a failing comparison gives false rather than an error |
| UserModel.DefaultRead | src/models/user.model.ts:30 | a default read never carries the password and keeps id, name and email |
| UserModel.Written | src/services/user.service.ts:35 | the document `create` answers carries the password as written |
| UserModel.ToJson | src/models/user.model.ts:35-49 | the user view shows `_id` as `id`, keeps name, email and whatever password the document holds, drops `__v`, and moves each present timestamp three hours forward |
| UserModel.FromJson | src/models/user.model.ts:35-49 | reading a user view back with a version gives a document of that version whose view is the given one |
| UserModel.JsonRoundTrip | src/models/user.model.ts:35-49 | the user view restores the document when read back with its version; the timestamps move by exactly three hours |
| UserModel.DefaultReadHidesPassword | src/models/user.model.ts:30 | the JSON view of a default read shows no password |
| Store.Valid | src/models/user.model.ts:16 | the invariant the services keep: every stored document meets its schema under its own identifier, and no two users share an email (the unique index) |
| Store.PutKeepsUnique | src/models/user.model.ts:16 | writing a user whose email no other user has keeps emails unique |
| Store.PutUserKeepsValid | src/models/user.model.ts:16 | writing a storable user under its own id, with an email no other user has, keeps the store valid |
| Store.PutPostKeepsValid | src/models/post.model.ts:5-27 | writing a storable post under its own id keeps the store valid |
| Store.SortedIds | src/services/post.service.ts:10 | a collection's identifiers in strictly ascending order, each exactly once |
| Store.AllPosts | src/services/post.service.ts:10 | `Post.find()` lists every stored post, one per identifier |
| Store.AllUsers | src/services/user.service.ts:9 | `User.find()` lists every stored user, one per identifier |
| Store.Filter | src/services/post.service.ts:19 | a filtered listing holds exactly the listed elements that satisfy the filter |
| PostService.GetAllPosts | src/services/post.service.ts:8-15 | every stored post, one per identifier, with the store unchanged |
| PostService.GetPostsByUser | src/services/post.service.ts:17-28 | exactly the posts of that author; when there are none it fails with the missing-user error; the store is unchanged |
| PostService.ByUserComplete | src/services/post.service.ts:17-28 | any post by an author makes the by-author listing succeed and appears in it |
| PostService.GetPostsByTag | src/services/post.service.ts:30-41 | exactly the posts that carry the trimmed tag; when there are none it fails with the no-post-for-tag error |
| PostService.GetPostById | src/services/post.service.ts:43-54 | the post stored under the id, or the post-not-found error when there is none |
| PostService.CreateValues | src/services/post.service.ts:63 | `Post.create` sets every field, and its values are already what the setters give, so setting them again changes nothing |
| PostService.CreateValuesAccepted | src/services/post.service.ts:63 | the post schema accepts a create request exactly when its trimmed title, content and tags meet their bounds |
| PostService.CreatePost | src/services/post.service.ts:56-68 | a malformed author is a cast failure; a missing author is the missing-user error; every failure writes nothing; a success adds exactly one post, with trimmed values and both timestamps set, and leaves the users alone |
| PostService.CreatePostKeepsValid | src/services/post.service.ts:56-68 | a creation keeps the store valid, and the created post reads back by its id |
| PostService.UpdatePost | src/services/post.service.ts:70-85 | values failing the schema are a validation error; a missing id is the post-not-found error; failures write nothing; a success changes exactly the supplied fields (trimmed) and `updatedAt` of that post |
| PostService.Apply | src/services/post.service.ts:72-76 | `$set` with `new: true`: the answered post carries the supplied values and the new `updatedAt`, and keeps identifier, author, version and creation time |
| PostService.UpdatePostKeepsValid | src/services/post.service.ts:70-85 | an update keeps the store valid, and the updated post is what a later read returns |
| PostService.DeletePost | src/services/post.service.ts:87-98 | a missing id is the post-not-found error; otherwise the post is removed and returned, and every other post and every user stays |
| PostService.DeleteThenGetFails | src/services/post.service.ts:87-98 | after a delete, reading or deleting the same id fails with post-not-found, and the store stays valid |
| UserService.DefaultReads | src/services/user.service.ts:9 | the default read of every user, in order, none with a password |
| UserService.GetAllUsers | src/services/user.service.ts:7-14 | one default read per stored user, none with a password, with the store unchanged |
| UserService.GetUserById | src/services/user.service.ts:16-27 | the default read of the user under the id, or the missing-user error |
| UserService.CreateUser | src/services/user.service.ts:29-40 | a taken (normalised) email is the email-exists error and writes nothing; a success adds exactly one user, with the normalised email and the password as submitted, and leaves the posts alone |
| UserService.CreatedPasswordIsPlain | src/services/user.service.ts:35 | a created user's password is stored as the plain text submitted, so `comparePassword` with that same password answers false |
| UserService.CreateUserKeepsValid | src/services/user.service.ts:29-40 | a creation keeps the store valid, unique emails included |
| UserService.NewPassword | src/services/user.service.ts:54-65 | no password, or an empty one, is passed on unhashed; a non-empty password that compares equal to the stored hash is refused with the same-password error; any other is replaced by a hash that compares equal to that password and to exactly the passwords sharing its first 72 units; a failing comparison propagates |
| UserService.SetEmail | src/services/user.service.ts:67-71 | an update sets an email exactly when one is supplied, and it is normalised |
| UserService.UpdateUser | src/services/user.service.ts:42-77 | a taken email is refused first; then a missing id is the missing-user error; failures write nothing; an update succeeds exactly when the email is not taken, the user exists, the password step succeeds and the validators pass; a success writes only the supplied fields of that user and answers its default read |
| UserService.Apply | src/services/user.service.ts:67-71 | `$set` with `new: true`: the user carries the supplied name, email and password and the new `updatedAt`, and keeps identifier, version and creation time |
| UserService.StoredEmailLookup | src/services/user.service.ts:44-47 | the lookup goes through the email setters, so an email already in stored form is taken exactly when some user has it |
| UserService.EmailCheckPrecedesExistence | src/services/user.service.ts:44-52 | for an id no user has, the answer is the email-exists error when the email is taken, and otherwise the missing-user error |
| UserService.OwnEmailIsTaken | src/services/user.service.ts:44-47 | resubmitting one's own current email is refused as taken and writes nothing |
| UserService.SamePasswordRefused | src/services/user.service.ts:54-61 | a password that compares equal to the stored hash is refused with the same-password error and writes nothing |
| UserService.SharedKeyRefused | src/services/user.service.ts:54-61 | a new password of at least 72 units that agrees on its first 72 with the one behind the stored hash is refused as the same password, and nothing is written |
| UserService.PlainPasswordResubmitAccepted | src/services/user.service.ts:54-64 | a user whose stored password is still the plain text from creation can resubmit it: the update succeeds and stores a hash of it |
| UserService.ChangedPasswordIsHashed | src/services/user.service.ts:63-64 | after a password change the stored value is a hash, never the text, that compares equal to the new password and to exactly the passwords sharing its first 72 units |
| UserService.AppliedUserIsStorable | src/services/user.service.ts:67-71 | values that pass the update validators, written over a stored user, give a storable user |
| UserService.UpdateUserWrote | src/services/user.service.ts:42-77 | a successful update passed the email check, found the user and passed the validators, and the store differs only in that user |
| UserService.UpdateUserKeepsValid | src/services/user.service.ts:42-77 | an update keeps the store valid, unique emails included |
| UserService.DeleteUser | src/services/user.service.ts:79-90 | a missing id is the missing-user error; otherwise exactly that user is removed and every post stays |
| UserService.DeleteUserKeepsPosts | src/services/user.service.ts:79-90 | deleting a user keeps the store valid and leaves the user's own posts in place |
| Messages.NameOf | src/controllers/post.controller.ts:108 | `error.name` is `ValidationError` exactly for a store validation error, and `CastError` or `BSONError` exactly for those library errors |
| Messages.MessageOf | src/constants/messages.ts:17-65 | `error.message`: the catalogue text a service throws, or the library's own text; `SentinelTextsDistinct` shows that each sentinel text identifies its error |
| Messages.OptionalError | src/models/post.model.ts:5-27 | a field contributes no entry exactly when its validators pass, and otherwise one entry with its first failing text |
| Messages.SentinelTextsDistinct | src/constants/messages.ts:17-65 | the sentinel texts are pairwise different, and the same-password text is none of the texts the handlers test; each text identifies its error |
| PostController.ViewsReadBack | src/controllers/post.controller.ts:12-18 | a listing shows every post in order, and each view reads back to its post |
| PostController.GetAllPostsResponse | src/controllers/post.controller.ts:6-26 | 200 with `results` equal to the list length and the posts' views; any failure is 500 with the get-error text |
| PostController.NotFoundOr500 | src/controllers/post.controller.ts:40-47 | 404 exactly when the error text is the given not-found text, otherwise 500, echoing the error's text |
| PostController.StoreErrors | src/controllers/post.controller.ts:108-118 | a store validation error is answered 400 with the validation-error text and its per-path entries |
| PostController.GetPostsByUserResponse | src/controllers/post.controller.ts:28-48 | 200 with the posts; a failure is 404 exactly for the missing-user text, else 500 |
| PostController.GetPostsByTagResponse | src/controllers/post.controller.ts:50-70 | 200 with the posts; a failure is 404 exactly for the no-post-for-tag text, else 500 |
| PostController.GetPostByIdResponse | src/controllers/post.controller.ts:72-91 | 200 with the post; a failure is 404 exactly for the post-not-found text, else 500 |
| PostController.CreatePostResponse | src/controllers/post.controller.ts:93-149 | 201 with the post on success; every failure is a 400, 404 or 500 |
| PostController.CreateKnownFailures | src/controllers/post.controller.ts:105-130 | a store validation error is a 400 and a missing author a 404 |
| PostController.CreateFailure | src/controllers/post.controller.ts:105-148 | what each error kind is meant to get from `createPost`: 404 exactly for the missing author, 400 exactly for a store validation error or a cast or BSON error, otherwise 500 with the create-error text |
| PostController.UpdatePostResponse | src/controllers/post.controller.ts:151-192 | 200 with the updated-text note and the post; every failure is a 400, 404 or 500 |
| PostController.UpdateFailure | src/controllers/post.controller.ts:164-191 | what each error kind is meant to get from `updatePost`: 404 exactly for the missing post, 400 exactly for a store validation error, otherwise 500 with the update-error text |
| PostController.DeletePostResponse | src/controllers/post.controller.ts:194-212 | 204 with the deleted-text note; a failure is 404 exactly for the post-not-found text, with a non-empty message |
| PostController.DispatchByKind | src/controllers/post.controller.ts:105-211 | for every error whose text is not mistaken for a sentinel, the handlers' text-based dispatch gives what each error kind is meant to give |
| UserController.ViewsReadBack | src/controllers/user.controller.ts:14-20 | a listing shows every user in order, and each view reads back to its document |
| UserController.GetAllUsersResponse | src/controllers/user.controller.ts:7-28 | 200 with `results` equal to the list length; any failure is 500 with the get-error text |
| UserController.UserNotFoundOr500 | src/controllers/user.controller.ts:42-48 | 404 exactly when the error text is the missing-user text, otherwise 500, echoing the error's text |
| UserController.GetUserByIdResponse | src/controllers/user.controller.ts:30-49 | 200 with the user; a failure is 404 exactly for the missing-user text, else 500 |
| UserController.CreateUserResponse | src/controllers/user.controller.ts:51-99 | 201 with the user on success; every failure is a 400 or a 500 |
| UserController.CreateFailure | src/controllers/user.controller.ts:63-98 | what each error kind is meant to get from `createUser`: 400 exactly for a store validation error or a taken email, otherwise 500 with the create-error text |
| UserController.UpdateUserResponse | src/controllers/user.controller.ts:101-158 | 200 with the user on success; every failure is a 400, 404 or 500 |
| UserController.UpdateFailure | src/controllers/user.controller.ts:113-157 | what each error kind is meant to get from `updateUser`: 400 exactly for a store validation error or a taken email, 404 exactly for the missing user, otherwise 500 with the update-error text |
| UserController.KnownUpdateFailures | src/controllers/user.controller.ts:113-157 | a taken email is answered 400 with its text; the same-password error matches no branch and is answered 500 with the update-error text |
| UserController.DeleteUserResponse | src/controllers/user.controller.ts:160-177 | 204 with no data; a failure is 404 exactly for the missing-user text, else 500 |
| UserController.DispatchByKind | src/controllers/user.controller.ts:63-176 | for every error whose text is not mistaken for a sentinel, the text-based dispatch gives what each error kind is meant to give |
| Endpoints.GetPostsByUserRoute | src/routes/post.routes.ts:76 | `GET /posts/user/:userId` answers 200 exactly when some post has that author, otherwise 404 with the missing-user text |
| Endpoints.CreatePostRoute | src/routes/post.routes.ts:185 | a body the create schema refuses is answered 400 and writes nothing |
| Endpoints.CreatePostNever500 | src/routes/post.routes.ts:185 | behind the schema a post creation is answered 201, 400 or 404, never 500: the schema only lets through authors that cast, so the failures left are the missing author and the store's validation |
| Endpoints.UpdatePostRoute | src/routes/post.routes.ts:232 | a body the update schema refuses is answered 400 and writes nothing |
| Endpoints.CreateUserRoute | src/routes/user.routes.ts:107 | a body the create schema refuses is answered 400 and writes nothing |
| Endpoints.UpdateUserRoute | src/routes/user.routes.ts:154 | a body the update schema refuses is answered 400 and writes nothing |
| Endpoints.ShortPostAnswer | src/routes/post.routes.ts:185 | the short post body is answered 400 with three entries, title, content and tags, with their texts, and writes nothing |
| Endpoints.EmptyPostUpdateAnswer | src/routes/post.routes.ts:232 | an empty update body is answered 400 with a single "at least one field" entry under an empty field name |
| Endpoints.SamePasswordAnswer | src/routes/user.routes.ts:154 | once the stored password is a hash, resubmitting that password together with an email no user has is answered 500 with the update-error text and writes nothing |
| Endpoints.OwnEmailAnswer | src/routes/user.routes.ts:154 | resubmitting one's own email is answered 400 with the email-exists text and writes nothing |

## Left out

- Process start-up, the database connection, Swagger generation and logging are not modelled. They have no effect on any answer.
- Concurrency is not modelled. The model is sequential, so the race between the email or author lookup and the write is outside it.
- Path parameters (`:id`, `:userId`) arrive as identifiers. Casting a malformed one, which the driver reports as a cast error answered 500, is not modelled.
- New identifiers, the clock and the salt of a new hash are parameters. A new identifier must not be in use, so the driver's duplicate-key error cannot arise.
- Listings enumerate a collection in ascending identifier order. This stands in for the database's natural order, which the code does not fix.
- A listing query itself never fails. The handlers' 500 branches for a failed listing are modelled in the handlers, which take any outcome.
- `Validation.CheckValue`: Joi's `.email()` grammar is a library internal. It is the parameter `emailShape`, and nothing is assumed about it.
- `Text.Trim`: white space follows ECMAScript's `String.prototype.trim` set. Strings are sequences of code points, not UTF-16 code units, so lengths differ for characters outside the Basic Multilingual Plane.
- `Text.Lower`: lower-cases ASCII letters only. Other letters are left unchanged.
- `UserModel.BcryptCompare`: a stored plain text of exactly 60 characters is parsed as a hash by the library. The model always treats it as a parse failure.
- Password hashing is symbolic. A `UserModel.Hash` records its salt and the password, and `Compares` is the only question asked of it.
- UserModel.HashPassword: bcrypt's 72-unit limit counts UTF-8 bytes, and the model counts characters. For a password with characters outside ASCII the model's key is therefore longer than bcrypt's, and the model tells apart some passwords that bcrypt confuses. A password that contains the NUL character is also confused by bcrypt with more passwords than the model says.
- `UserService.UpdateEmailTaken`: with no email in an update, the source's lookup runs with an undefined filter value. The model takes it to match nobody. No lemma depends on that choice: every lemma about an update either states the email check as a precondition or sends an email.
- `Messages.MessageOf`: the message of the store's validation error is a fixed text. The handlers never show it; they list the errors per field.
- `Json.Lookup`: a parsed body is assumed to have distinct keys. With a repeated key the model reads the first occurrence, where `JSON.parse` keeps the last.
- The "array.required" text the post schemas set is not a code the library raises, so it has no effect and is not modelled.
- The object-level `.messages()` of an update schema is inherited by its keys. The model resolves the object's texts for the key-count and unknown-key violations, which are the only codes it overrides.
- The service-level `updatePost` accepts an `author` change, but the route's schema refuses the key. The update request therefore carries no author.
- The 204 answers of the delete handlers carry a JSON body that HTTP discards. The model keeps the body the handler builds.
- `Post.findByAuthor`, `Post.findByTag` and `User.findByEmail` are not modelled: nothing in the core calls these model statics.
- The `GET` and `DELETE` routes other than `GET /posts/user/:userId` are not composed in `Endpoints`. Each is its handler applied to its service call, and both halves are modelled.
- `status: "success"` and `status: "error"` are the two constructors of `Http.Envelope`, not a string field.
