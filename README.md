# Full-Stack-JS contacts backend and form logic, modelled in Dafny

This project models the resource access-control and CRUD core of the
Full-Stack-JS contacts application, together with the pure helpers and
front-end state updaters around it.

Backend:

- **Contact service.** The contacts policy decides what the owner, a user the
  contact is shared with, and anyone else may do. The listing shows the
  contacts a user owns or that are shared with them. Every returned contact
  carries its derived `sharedWith` list. Removing a contact cascades to its
  shares. The share reconciliation `syncShares` normalizes a target list of
  users, inserts the shares that are missing and deletes the extra ones.
- **Generic CRUD service.** Each operation asks the resource's `allow`
  policy and then acts on the collection. Records come back through
  `sanitize`, which keeps the public fields only.
- **Users policy.** Anonymous users may only register. Administrators may
  do everything. Any other user may act on their own record only.
- **Express CRUD handlers.** `list` clamps the page size and skip, and shows
  only live documents. `get` hides soft-deleted documents. `create`,
  `patch` and `put` stamp the audit fields. `remove` soft-deletes or
  hard-deletes. The parameter lookups add `deleted: false` to their query.
- **In-memory auth registry.** Registration refuses a known email and
  defaults the role. Login checks the password against the stored hash.
  The public view of a user has no password hash.
- **Schema converters.** A Zod schema tree is turned into a Mongoose schema
  fragment and into an OpenAPI schema. The OpenAPI registry merges paths
  and keeps the first schema registered under a name.
- **Shared helpers.** `pick` and `omit`, and the contact validation schemas.

Front end:

- **Contact form.** The phone-list updaters, the clean-up of the submit
  payload, the mapping of validation issues to field errors, and the error
  formatter.
- **Infinite contact list.** Merging pages without duplicate ids, the page
  query, and the rules that stop loading.

The Mongo collections are modelled as a class holding a map from ObjectId
to document plus the insertion order. The share collection is a sequence of
(contact, user, sharedBy) records under the unique (contact, user) index of
`backend/src/models/contact-share.model.ts:32`. Library checks are
parameters of the model:

- the email and E.164 formats;
- the password-hash comparison;
- a schema's `parse`;
- `JSON.stringify`.

The clock, generated ids and fetch responses are parameters too.

## Model

| member | source | states |
|---|---|---|
| Contacts.ToStringId | backend/src/modules/contacts/contacts.service.ts:102-115 | a result is the text of the given value; an ObjectId always gives its hex text; no result means the value is missing, falsy, or neither an ObjectId nor a string |
| Contacts.Policy | backend/src/modules/contacts/contacts.service.ts:41-42 | the `allow` hook of the contacts service answers exactly what `canPerform` answers |
| Contacts.NoUserNoAction | backend/src/modules/contacts/contacts.service.ts:57-58 | without a non-empty user id every action is denied |
| Contacts.NoResource | backend/src/modules/contacts/contacts.service.ts:60-62 | with no resource a signed-in user may create and list only, so read, update and delete of a missing contact end in Forbidden |
| Contacts.OwnerMayDoAll | backend/src/modules/contacts/contacts.service.ts:64-65 | the owner may perform every action on the contact |
| Contacts.NonOwner | backend/src/modules/contacts/contacts.service.ts:64-71 | on a contact owned by someone else: update, delete, create and list are denied; read is allowed exactly when a share (contact, user) exists; a user id that is not an ObjectId makes the read check throw |
| Contacts.VisibleDocs | backend/src/modules/contacts/contacts.service.ts:180-198 | the kept documents are exactly those the user owns or that are shared with the user, in order |
| Contacts.ListedAreReadable | backend/src/modules/contacts/contacts.service.ts:186-191 | every contact the listing shows, the policy lets that user read |
| Contacts.IdsOf | backend/src/modules/contacts/contacts.service.ts:200-202 | the truthy text ids of the documents, in order |
| Contacts.FormatContact | backend/src/modules/contacts/contacts.service.ts:137-166 | a record always gives a view and null gives none; with an empty grouping (as `remove` passes) the view has no share users |
| Contacts.FormatStored | backend/src/modules/contacts/contacts.service.ts:144-163 | a stored contact keeps its other public fields as stored and carries the share users recorded under its own id |
| Contacts.GroupedLookup | backend/src/modules/contacts/contacts.service.ts:125-134 | the grouping gives each wanted contact its share users, in collection order |
| Contacts.FormatAllFound | backend/src/modules/contacts/contacts.service.ts:200-207 | formatting the listed contacts with the grouping of their ids gives each one its own share users |
| Contacts.UpdatePayload | backend/src/modules/contacts/contacts.service.ts:243-247 | the payload keeps its keys and every field but `owner`; only a truthy owner can fail, and then with a CastError |
| Contacts.ContactsService.MapShares | backend/src/modules/contacts/contacts.service.ts:117-135 | a contact id that is not an ObjectId throws; otherwise the map gives each queried contact that has shares its share users, in collection order |
| Contacts.ContactsService.Reconcile | backend/src/modules/contacts/contacts.service.ts:298-318 | with distinct users to add, the collection becomes the reconciled one; otherwise the ordered insert stops at the duplicate, throws DuplicateKey, and the delete never runs |
| Contacts.ContactsService.SyncShares | backend/src/modules/contacts/contacts.service.ts:275-319 | a malformed contact id or grantor throws and changes nothing; otherwise the collection becomes the reconciliation against the normalized target |
| Contacts.ContactsService.SyncSharesAsWritten | backend/src/modules/contacts/contacts.service.ts:286-289 | as written, the target is deduplicated before the cast; when the users to add then repeat, the ordered insert throws DuplicateKey after a partial insert and no delete runs |
| Contacts.ContactsService.FindAll | backend/src/modules/contacts/contacts.service.ts:168-208 | no user is Unauthorized; a malformed user id throws; otherwise exactly the visible matching contacts, each with its own share users |
| Contacts.ContactsService.FindById | backend/src/modules/contacts/contacts.service.ts:210-215 | the base lookup under the policy (a missing contact is Forbidden), then the contact with its share users |
| Contacts.ContactsService.CreateAsWritten | backend/src/modules/contacts/contacts.service.ts:217-238 | as written, the created record has no `id`, so it is returned as sanitized and the share list is ignored |
| Contacts.ContactsService.Create | backend/src/modules/contacts/contacts.service.ts:217-238 | no user is Unauthorized and a malformed owner a CastError, with no change; an existing id is DuplicateKey with no change; otherwise the contact is stored without `sharedWith` and appended to the store order, owned by the cast of the payload's owner, else of the user; a non-empty list reconciles the shares against the list normalized without that stored owner, so the stored owner is never a share user, a malformed acting user is a CastError that leaves the shares, and an empty list leaves them; the result carries the contact's share users |
| Contacts.ContactsService.Update | backend/src/modules/contacts/contacts.service.ts:240-264 | the store order never changes; a malformed id or owner, or a refusal, changes nothing; otherwise the fields are set; a given `sharedWith` (even empty) reconciles the shares against the updated owner, a malformed acting user is a CastError that leaves the shares, and no list leaves them; the result carries the contact's share users |
| Contacts.ContactsService.Remove | backend/src/modules/contacts/contacts.service.ts:266-273 | a malformed id or a refusal changes nothing; otherwise the contact leaves the store and the store order, and every share of it is deleted; the record comes back with no share users |
| ContactShares.SharedWithUserIff | backend/src/modules/contacts/contacts.service.ts:180-182 | a contact is among those shared with a user exactly when that user is among the contact's share users |
| ContactShares.UsersOf | backend/src/modules/contacts/contacts.service.ts:125-133 | the listed users are exactly the share users of the contact |
| ContactShares.Dedup | backend/src/modules/contacts/contacts.service.ts:286 | no duplicates, and the same elements as the input |
| ContactShares.CastAll | backend/src/modules/contacts/contacts.service.ts:287-288 | the results are canonical ObjectIds, exactly the casts of the valid inputs |
| ContactShares.DropOwner | backend/src/modules/contacts/contacts.service.ts:289 | exactly the inputs other than the owner; no duplicates are introduced |
| ContactShares.NormalizeAsWritten | backend/src/modules/contacts/contacts.service.ts:286-289 | dedup before the cast, as written: every result is a canonical ObjectId, but duplicates can remain |
| ContactShares.Normalize | backend/src/modules/contacts/contacts.service.ts:286-289 | no duplicates, canonical ids, never the owner, and exactly the valid inputs other than the owner |
| ContactShares.NormalizeAgreesOnCanonical | backend/src/modules/contacts/contacts.service.ts:286-289 | on lower-case ids the code as written and the corrected order give the same list |
| ContactShares.ToAdd | backend/src/modules/contacts/contacts.service.ts:295-298 | exactly the target users the contact is not shared with yet; distinct when the target is |
| ContactShares.AddedUsers | backend/src/modules/contacts/contacts.service.ts:303-310 | inserting shares of a contact adds exactly those users to it |
| ContactShares.InsertMany | backend/src/modules/contacts/contacts.service.ts:304-310 | the ordered insert keeps the collection as a prefix and appends every record when nothing is refused |
| ContactShares.InsertManyRefused | backend/src/models/contact-share.model.ts:32 | inserting shares of one contact is refused exactly when a user is already shared with or listed twice |
| ContactShares.InsertManyAppends | backend/src/modules/contacts/contacts.service.ts:304-310 | an insert that is not refused appends every record, in order |
| ContactShares.InsertManyWellFormed | backend/src/models/contact-share.model.ts:32 | the unique index and the ObjectId fields survive an ordered insert, refused or not |
| ContactShares.NewShares | backend/src/modules/contacts/contacts.service.ts:305-309 | one record per user, for the contact and the grantor |
| ContactShares.AfterDelete | backend/src/modules/contacts/contacts.service.ts:313-318 | exactly the records not of the contact with a removed user, in order; uniqueness is kept; nothing matching leaves the collection as it was |
| ContactShares.DropContact | backend/src/modules/contacts/contacts.service.ts:270 | exactly the records of other contacts; uniqueness is kept |
| ContactShares.ReconciledUsers | backend/src/modules/contacts/contacts.service.ts:291-318 | afterwards the contact is shared with exactly the target |
| ContactShares.ReconciledKeepsOthers | backend/src/modules/contacts/contacts.service.ts:291-318 | shares of every other contact are neither inserted nor deleted |
| ContactShares.ReconciledKeepsRecords | backend/src/modules/contacts/contacts.service.ts:295-301 | a share whose user stays in the target keeps its original record, grantor included |
| ContactShares.ReconciledWellFormed | backend/src/models/contact-share.model.ts:32 | a duplicate-free target of ObjectIds keeps the collection unique and well formed |
| ContactShares.ReconcileIdempotent | backend/src/modules/contacts/contacts.service.ts:295-301 | a second call with the same target inserts nothing, deletes nothing and leaves the collection as it is |
| ContactShares.OwnerNeverShared | backend/src/modules/contacts/contacts.service.ts:289 | after reconciling, the owner text passed in is never a share user of the contact, and neither is the owner's cast ObjectId when that cast is what is passed in |
| ContactShares.OwnerFilterAsWritten | backend/src/modules/contacts/contacts.service.ts:222-235 | an owner spelled in upper case is not filtered out of the lower-cased share list, so the contact is shared with the owner it stores; filtering the cast owner drops it |
| ContactShares.NormalizeAsWrittenDuplicates | backend/src/modules/contacts/contacts.service.ts:286-289 | an upper-case and a lower-case spelling of one id survive the code as written twice, giving a duplicate insert; the corrected order gives one user |
| CrudServices.Gate | backend/src/services/crud.service.ts:41-44 | no policy or a yes lets the call through; a no is Forbidden; a policy that throws passes its error on |
| CrudServices.CrudService.Sanitize | backend/src/services/crud.service.ts:28-38 | null stays null; with no field list the document is returned itself; otherwise exactly the public fields the document has, with its values |
| CrudServices.CrudService.Create | backend/src/services/crud.service.ts:40-47 | a refusal changes nothing; a taken id is DuplicateKey; otherwise one record is appended and returned sanitized |
| CrudServices.CrudService.FindAll | backend/src/services/crud.service.ts:49-56 | a refusal is an error; otherwise one sanitized entry per stored match, in store order |
| CrudServices.CrudService.FindById | backend/src/services/crud.service.ts:58-65 | a malformed id is a CastError; the read is authorized against the record found (or none), which comes back sanitized |
| CrudServices.CrudService.Update | backend/src/services/crud.service.ts:67-77 | a malformed id or a refusal changes nothing; an absent id gives null and no change; otherwise the fields are set and the record returned sanitized |
| CrudServices.CrudService.Remove | backend/src/services/crud.service.ts:79-87 | a malformed id or a refusal changes nothing; otherwise the id is gone from the store and from the store order, and the old record comes back sanitized |
| DocumentStore.Collection.Find | backend/src/services/crud.service.ts:54 | the matching documents, in insertion order |
| DocumentStore.Collection.Insert | backend/src/services/crud.service.ts:45 | a new id adds exactly one document holding the payload under that `_id`; a taken id is DuplicateKey |
| DocumentStore.Collection.SetFields | backend/src/services/crud.service.ts:73-75 | an absent id changes nothing; otherwise only the patched fields change |
| DocumentStore.Collection.Replace | backend/src/controllers/crud.ts:159-161 | an absent id changes nothing; otherwise the document becomes the new value under the same `_id` |
| DocumentStore.Collection.Delete | backend/src/services/crud.service.ts:85 | the id is gone and every other document is kept |
| UsersService.Hook | backend/src/modules/users/users.service.ts:36-51 | the hook lets an operation through exactly when the users policy allows it, and refuses with Forbidden otherwise |
| UsersService.AnonymousOnlyCreates | backend/src/modules/users/users.service.ts:37-40 | an anonymous requester may create and do nothing else |
| UsersService.AdminMayDoAll | backend/src/modules/users/users.service.ts:41 | an administrator may do every action on every resource |
| UsersService.NonAdminListsNothing | backend/src/modules/users/users.service.ts:42-43 | a non-administrator never lists and always may create |
| UsersService.OwnRecordOnly | backend/src/modules/users/users.service.ts:44-50 | on a stored record, a non-administrator may read, update or delete exactly their own; with no record the answer is no |
| UsersService.UndefinedIdsCompareEqual | backend/src/modules/users/users.service.ts:46-48 | a resource with neither `_id` nor `id` is allowed to a signed-in user without an id |
| UsersService.NoPasswordLeaves | backend/src/modules/users/users.service.ts:15-26 | a sanitized user record never has a password field |
| UsersService.FindByEmail | backend/src/modules/users/users.service.ts:55-57 | a found record has that email; none is found exactly when no stored user has it |
| CrudHandlers.ParamText | backend/src/controllers/crud.ts:95 | an absent route parameter reads as "undefined" |
| CrudHandlers.LimitAsWritten | backend/src/controllers/crud.ts:84 | at most 100, 50 by default, the request otherwise |
| CrudHandlers.Limit | backend/src/controllers/crud.ts:84 | corrected limit between 1 and 100; 50 by default |
| CrudHandlers.Skip | backend/src/controllers/crud.ts:85 | never negative; the request when it is not negative |
| CrudHandlers.Window | backend/src/controllers/crud.ts:86 | a contiguous run of the documents from `skip`; a zero limit takes the whole rest |
| CrudHandlers.CreateStamp | backend/src/controllers/crud.ts:113-118 | with a user, an existing non-null `createdBy` is kept or set to the user, `updatedBy` becomes the user, and nothing else changes |
| CrudHandlers.UpdateStamp | backend/src/controllers/crud.ts:132-135 | with a user, only `updatedBy` is set; without one the payload is untouched |
| CrudHandlers.ParamQuery | backend/src/controllers/crud.ts:224-228 | the query has `deleted: false` and, unless the field is `deleted`, exactly the field with the value |
| CrudHandlers.Handlers.ListAsWritten | backend/src/controllers/crud.ts:81-91 | as written, the page of live documents under the uncorrected limit |
| CrudHandlers.Handlers.List | backend/src/controllers/crud.ts:81-91 | at most 100 documents, all stored and live, in store order |
| CrudHandlers.Handlers.GetDoc | backend/src/controllers/crud.ts:93-105 | 404 for a missing or soft-deleted document, the document otherwise |
| CrudHandlers.Handlers.Create | backend/src/controllers/crud.ts:107-124 | a refused payload changes nothing; an existing id is DuplicateKey with no change; otherwise the stamped payload is stored, appended to the store order and returned with 201 |
| CrudHandlers.Handlers.Patch | backend/src/controllers/crud.ts:126-147 | the partial payload, stamped, is set on the document; 404 when it is absent |
| CrudHandlers.Handlers.Put | backend/src/controllers/crud.ts:149-170 | the stamped payload replaces the document; 404 when it is absent |
| CrudHandlers.SoftDeletePatch | backend/src/controllers/crud.ts:180-184 | setting the soft-delete fields flags the document deleted, stamps `deletedAt`, and leaves every other field as it was |
| CrudHandlers.WindowOfLive | backend/src/controllers/crud.ts:81-91 | every document on a page of the live query is one of the found documents and has `deleted: false` |
| CrudHandlers.Handlers.Remove | backend/src/controllers/crud.ts:172-192 | a missing id is 404 with no change; a document with a `deleted` field is flagged and stamped and stays stored in place; any other document leaves the store and the store order |
| CrudHandlers.GetByParam | backend/src/controllers/crud.ts:217-238 | the first live document whose field equals the parameter's text, or 404 |
| CrudHandlers.FindByParam | backend/src/controllers/crud.ts:269-286 | every live document whose field equals the parameter's text, exactly the store's matches in store order |
| CrudHandlers.ZeroLimitUncapped | backend/src/controllers/crud.ts:84 | as written a limit of 0 returns more than 100 documents when there are that many; the corrected limit does not |
| CrudHandlers.PageBounds | backend/src/controllers/crud.ts:84-86 | a corrected page never holds more than 100 documents, and the default page is the first 50 |
| ObjectUtils.Pick | packages/shared/src/utils.ts:11-17 | exactly the listed keys the object has, each with the object's value |
| ObjectUtils.Omit | packages/shared/src/utils.ts:26-32 | exactly the object's keys that are not listed, each with the object's value |
| ObjectUtils.PickOmitPartition | packages/shared/src/utils.ts:11-32 | pick and omit with the same keys have disjoint key sets whose union is the object |
| ObjectUtils.NoKeys | packages/shared/src/utils.ts:12-16 | with no keys pick is empty and omit returns the object |
| ZodSchemas.Wrappers | backend/src/utils/zod-to-mongoose.ts:44-68 | every node of the chain is an optional, nullable, default or effects wrapper |
| ZodSchemas.Peel | backend/src/utils/zod-to-mongoose.ts:44-68 | the core is not a wrapper and is no larger than the node |
| ZodSchemas.Unwrap | backend/src/utils/zod-to-mongoose.ts:41-70 | the loop computes the peeled result whose properties PeelChain states |
| ZodSchemas.PeelCore | backend/src/utils/zod-to-mongoose.ts:44-68 | the core is the inner node of the last wrapper of the chain, or the node itself when it is not wrapped |
| ZodSchemas.AnyMakesOptionalCons | backend/src/utils/zod-to-mongoose.ts:48-56 | a chain with one more wrapper in front makes the node optional iff that wrapper is optional, nullable or default or the rest of the chain makes it optional |
| ZodSchemas.InnermostDefaultCons | backend/src/utils/zod-to-mongoose.ts:53-59 | a wrapper put in front of a chain keeps the rest's innermost default, and supplies its own default only when the rest has none |
| ZodSchemas.PeelOptional | backend/src/utils/zod-to-mongoose.ts:48-56 | `optional` is set iff the flag was set already or an optional, nullable or default wrapper is in the chain |
| ZodSchemas.PeelDefault | backend/src/utils/zod-to-mongoose.ts:53-59 | the default is that of the innermost default wrapper of the chain, or the one carried in when there is none |
| ZodSchemas.PeelChain | backend/src/utils/zod-to-mongoose.ts:48-66 | the core is what follows the chain of wrappers; `optional` is set iff an optional, nullable or default wrapper is in the chain; the default is that of the innermost default wrapper, or the one carried in |
| ZodToMongoose.Convert | backend/src/utils/zod-to-mongoose.ts:118-166 | the loop and recursion compute the fragment whose cases the lemmas below state |
| ZodToMongoose.ScalarFlags | backend/src/utils/zod-to-mongoose.ts:122-139 | string, number, boolean and enum nodes are required exactly when not optional and carry the found default, or none |
| ZodToMongoose.LiteralFlags | backend/src/utils/zod-to-mongoose.ts:140-149 | a literal always defaults to itself; `required: false` appears exactly when optional |
| ZodToMongoose.ArrayFragment | backend/src/utils/zod-to-mongoose.ts:150-153 | an array becomes the one-element list of its converted item |
| ZodToMongoose.ShapeDefKeys | backend/src/utils/zod-to-mongoose.ts:154-161 | the converted object is keyed by exactly the shape's keys |
| ZodToMongoose.ShapeDefValues | backend/src/utils/zod-to-mongoose.ts:154-161 | with unique keys, each key of the shape maps to the conversion of its own node |
| ZodToMongoose.ShapeFields | backend/src/utils/zod-to-mongoose.ts:154-161 | the converted shape has the shape's keys, each with its converted node |
| ZodToMongoose.ObjectFragment | backend/src/utils/zod-to-mongoose.ts:154-162 | an object becomes an object with the same keys, each converted |
| ZodToMongoose.OtherFragment | backend/src/utils/zod-to-mongoose.ts:163-164 | any other kind becomes `{ type: Object }` |
| ZodToMongoose.DocumentedExample | backend/src/utils/zod-to-mongoose.ts:112-116 | the documented example converts as documented |
| OpenApiRegistry.RequiredKeys | backend/src/config/openapi-registry.ts:107-114 | a key is listed exactly when its node is not optional |
| OpenApiRegistry.ZodToOpenApi | backend/src/config/openapi-registry.ts:85-125 | a missing node gives `{ type: "object" }`; otherwise the conversion of the node, the object case built entry by entry |
| OpenApiRegistry.PropertyKeys | backend/src/config/openapi-registry.ts:108-109 | the properties are keyed by exactly the shape's keys |
| OpenApiRegistry.PropertyValues | backend/src/config/openapi-registry.ts:108-109 | with unique keys, each key of the shape maps to the conversion of its own node |
| OpenApiRegistry.PropertiesOfShape | backend/src/config/openapi-registry.ts:108-109 | the properties have the shape's keys, each with its converted node |
| OpenApiRegistry.RequiredOfShape | backend/src/config/openapi-registry.ts:110-116 | `required` lists exactly the non-optional keys, and is left out exactly when every field is optional |
| OpenApiRegistry.ObjectSchema | backend/src/config/openapi-registry.ts:104-117 | the object case as a whole |
| OpenApiRegistry.WrapperSchemas | backend/src/config/openapi-registry.ts:119-123 | optional and nullable wrappers are transparent; other wrappers give `{ type: "object" }` |
| OpenApiRegistry.StripLeadingSlash | backend/src/config/openapi-registry.ts:27 | one leading slash is removed and nothing else changes |
| OpenApiRegistry.RegisterAllKeeps | backend/src/config/openapi-registry.ts:63-67 | registering a list never replaces a schema and adds exactly the listed names |
| OpenApiRegistry.RegisterAllFirstWins | backend/src/config/openapi-registry.ts:20-24 | a new name is registered with its first schema in the list |
| OpenApiRegistry.Registry.RegisterPath | backend/src/config/openapi-registry.ts:16-18 | the item's methods override; other methods on the path stay; other paths are unchanged |
| OpenApiRegistry.Registry.RegisterSchema | backend/src/config/openapi-registry.ts:20-24 | first write wins |
| OpenApiRegistry.Registry.RegisterCrudResource | backend/src/config/openapi-registry.ts:26-68 | touches exactly `basePath` and `basePath/{id}`, then registers the schemas first-write-wins |
| OpenApiRegistry.Registry.RegisterZodSchema | backend/src/config/openapi-registry.ts:127-134 | the converted schema is registered first-write-wins |
| OpenApiRegistry.DefaultTag | backend/src/config/openapi-registry.ts:27 | without a tag, the tag is the base path without its leading slash |
| AuthService.PublicHidesHash | backend/src/modules/auth/auth.service.ts:28-31 | the public view keeps every public field and does not depend on the password hash |
| AuthService.FindUser | backend/src/modules/auth/auth.service.ts:65 | the first stored user the key identifies, or none exactly when no user matches |
| AuthService.AppendKeepsUnique | backend/src/modules/auth/auth.service.ts:65-80 | appending a user with an unknown email keeps emails unique |
| AuthService.FoundByEmailIsUnique | backend/src/modules/auth/auth.service.ts:96 | with unique emails, the lookup by email finds that user |
| AuthService.RegisteredFindsItself | backend/src/modules/auth/auth.service.ts:65-80 | after a registration, a lookup by its email finds the new record |
| AuthService.Registry.Register | backend/src/modules/auth/auth.service.ts:63-85 | a refused payload is BadRequest; a known email is Conflict with no change; otherwise exactly one record is appended, the role defaults to user, and both timestamps are equal; the username (3 to 32) and password (8 to 128) bounds count UTF-16 code units |
| AuthService.Registry.Login | backend/src/modules/auth/auth.service.ts:94-104 | succeeds exactly when a user with that email has a matching hash, returning that user's public view; otherwise Unauthorized |
| AuthService.Registry.GetUserById | backend/src/modules/auth/auth.service.ts:126-128 | the first stored record with that id, or none exactly when there is none |
| ContactForm.Pad | frontend/src/components/ContactFormDialog.logic.tsx:139 | the list keeps its entries and is extended with blank entries to `max(length, index + 1)` |
| ContactForm.ChangePhoneField | frontend/src/components/ContactFormDialog.logic.tsx:133-147 | the loop computes the update whose properties PhoneFieldChangedSpec states |
| ContactForm.PhoneFieldChangedSpec | frontend/src/components/ContactFormDialog.logic.tsx:136-143 | unchanged when the field already holds the value; otherwise the list is padded, only that field of that entry is set, and the rest is kept |
| ContactForm.PhoneAdded | frontend/src/components/ContactFormDialog.logic.tsx:149-160 | exactly one entry is appended with an empty number; the rest is kept |
| ContactForm.SpliceStart | frontend/src/components/ContactFormDialog.logic.tsx:167 | the start of `splice` never passes the end of the list |
| ContactForm.PhoneRemoved | frontend/src/components/ContactFormDialog.logic.tsx:162-170 | an index inside the list removes only that entry and keeps the rest in order |
| ContactForm.RemoveUndoesAdd | frontend/src/components/ContactFormDialog.logic.tsx:149-170 | removing the entry just added restores the previous list |
| ContactForm.SubmitPayload | frontend/src/components/ContactFormDialog.logic.tsx:176-197 | the loop computes the clean-up whose properties CleanedSpec states |
| ContactForm.CleanedSpec | frontend/src/components/ContactFormDialog.logic.tsx:181-197 | none of the cleaned keys is blank; other keys keep their values; no phone entry has a temporary id |
| ContactForm.LonePhoneMoved | frontend/src/components/ContactFormDialog.logic.tsx:177-180 | a truthy phone with no list becomes a one-entry list and leaves the payload |
| ContactForm.CleanedIdempotent | frontend/src/components/ContactFormDialog.logic.tsx:176-197 | cleaning twice equals cleaning once |
| ContactForm.MapIssues | frontend/src/components/ContactFormDialog.logic.tsx:200-211 | the loop gives the field errors and the non-field error of the issues, later issues overwriting earlier ones |
| ContactForm.PathIssuesErrors | frontend/src/components/ContactFormDialog.logic.tsx:203-209 | issues that all carry a field path leave the non-field error as it was, and each field shows the message of the last issue on it |
| ContactForm.NoChannelShownOnName | frontend/src/components/ContactFormDialog.logic.tsx:203-209 | with no channel and a name, the refinement's message shows under `name` and as the non-field error; with the name missing, `name` shows its own issue and the non-field error is left as it was |
| ContactForm.FormatDetails | frontend/src/components/ContactFormDialog.logic.tsx:33-43 | nothing for null and undefined; a string is shown as itself |
| ContactForm.DetailsJoinMessages | frontend/src/components/ContactFormDialog.logic.tsx:35-36 | an array of issues shows their messages joined by "; " |
| ContactForm.FormatError | frontend/src/components/ContactFormDialog.logic.tsx:54-81 | "Failed to submit" for null and undefined; "true"/"false" for booleans; a plain error's message |
| ContactForm.ApiErrorMessages | frontend/src/components/ContactFormDialog.logic.tsx:45-52 | an API error whose details carry a message shows it; array details show their messages joined |
| InfiniteContacts.InOrderAppend | frontend/src/components/InfiniteContacts.tsx:56-65 | setting a new key on the insertion-ordered map appends its item to the map's values and keeps every earlier item in place |
| InfiniteContacts.MergeKeep | frontend/src/components/InfiniteContacts.tsx:59-62 | an item whose truthy id is not yet in the map is kept, ahead of what the rest of the walk keeps once its id is in the map |
| InfiniteContacts.MergeSkip | frontend/src/components/InfiniteContacts.tsx:59-62 | an item without a truthy id, or whose id is already in the map, adds nothing to what the walk keeps |
| InfiniteContacts.Merge | frontend/src/components/InfiniteContacts.tsx:56-65 | the loop over the concatenation computes the merged list whose properties MergeSpec states |
| InfiniteContacts.DedupUnique | frontend/src/components/InfiniteContacts.tsx:58-63 | every kept item has a truthy id not seen before, and no two share an id |
| InfiniteContacts.DedupIds | frontend/src/components/InfiniteContacts.tsx:59-63 | the kept ids are exactly the truthy ids of the input not already seen |
| InfiniteContacts.DedupFirst | frontend/src/components/InfiniteContacts.tsx:62 | every kept item is the first item of the input with its id |
| InfiniteContacts.ShownItemsKept | frontend/src/components/InfiniteContacts.tsx:57-62 | items already shown stay in front and unchanged |
| InfiniteContacts.MergeSpec | frontend/src/components/InfiniteContacts.tsx:56-65 | ids stay unique, shown items stay in front, the ids are those of both lists, and each item is the first of its id |
| InfiniteContacts.PageQuery | frontend/src/components/InfiniteContacts.tsx:45-50 | the criteria, with `limit` the page size and `offset` the page index times the page size |
| InfiniteContacts.Pager.LoadPage | frontend/src/components/InfiniteContacts.tsx:40-75 | nothing without a token; otherwise the page query; a non-array or failure stops loading; a page is merged and a short one stops loading; once stopped, loading stays stopped |
| InfiniteContacts.Pager.Reset | frontend/src/components/InfiniteContacts.tsx:77-81 | the pager takes the new criteria, with no items, page 0 and more to load |
| InfiniteContacts.Pager.LoadFirst | frontend/src/components/InfiniteContacts.tsx:83-89 | with more to load and no items, page 0 is queried and the page becomes 1; the items become the old items merged with the page, loading stops after a short page, a non-array or a failure, and nothing changes without a token; otherwise nothing changes; once stopped, loading stays stopped |
| InfiniteContacts.Pager.LoadNext | frontend/src/components/InfiniteContacts.tsx:91-104 | with more to load, the current page is queried and the page advances; the items become the old items merged with the page, loading stops after a short page, a non-array or a failure, and nothing changes without a token; without more to load nothing changes and loading stays stopped |
| ObjectIds.Cast | packages/shared/src/validation/contacts.ts:3 | a string casts exactly when it is 24 hexadecimal characters, and always to a canonical (lower-case) id |
| ObjectIds.CastCanonical | packages/shared/src/validation/contacts.ts:3 | a canonical id casts to itself |
| ContactValidation.CreateIssues | packages/shared/src/validation/contacts.ts:5-22 | no issue exactly when the create schema accepts: both names 1 to 100 UTF-16 code units, a valid phone (3 to 32 code units) and email where given, an address of at most 255 code units, an ObjectId owner and ObjectId shares |
| ContactValidation.UpdateIssues | packages/shared/src/validation/contacts.ts:24-27 | no issue exactly when the update schema accepts: every field optional, each checked only when present, with the create schema's code-unit bounds |
| ContactValidation.NameBoundCountsCodeUnits | packages/shared/src/validation/contacts.ts:6-7 | the name bound is the character count for Basic Multilingual Plane text, never admits more than 100 characters, and refuses sixty emoji |
| Common.JsLength | packages/shared/src/validation/contacts.ts:6-15 | JavaScript's string length lies between the character count and twice it |
| Common.JsLengthAppend | packages/shared/src/validation/contacts.ts:6-15 | the length of a concatenation is the sum of the lengths |
| Common.JsLengthCountsPairs | packages/shared/src/validation/contacts.ts:6-15 | the length equals the character count exactly when every character is in the Basic Multilingual Plane |
| Common.JsLengthAllPairs | packages/shared/src/validation/contacts.ts:6-15 | characters outside the Basic Multilingual Plane count twice |
| ContactValidation.CreateAcceptedByUpdate | packages/shared/src/validation/contacts.ts:19-27 | whatever create accepts, update accepts; the empty payload shows the converse fails |
| ContactSchema.RejectedFields | packages/shared/src/validators/contact.schema.ts:6-8 | `name` is rejected iff empty or missing; `email` and `phone` iff present and malformed; nothing else |
| ContactSchema.ValidIff | packages/shared/src/validators/contact.schema.ts:5-24 | valid exactly when the name is non-empty, email and phone are well formed where given, and some channel is truthy; exactly then there is no issue |
| ContactSchema.NoChannelRejected | packages/shared/src/validators/contact.schema.ts:11-23 | no truthy channel is rejected; with a name the last issue is the refinement's and the only one without a path; with the name missing the refinement is skipped and every issue has a path, the first being the name's |
| ContactSchema.NameAndNoteValid | packages/shared/src/validators/contact.schema.ts:12-17 | a name and only a note pass |
| ContactSchema.EmptyNameRejected | packages/shared/src/validators/contact.schema.ts:6 | an empty name is refused even with every channel |

## Left out

- HTTP wiring, routers, error middleware and status-code plumbing are not modelled. Errors are a `Failure` datatype, and handlers return a status and a body.
- JWT issue and verification are not modelled. Password hashing is a supplied hash, and password checking is the `passwordMatches` parameter.
- Concurrency is left out. Every service call is one sequential step over the collections; `syncShares` is not atomic in the source.
- Mongoose internals are left out. The store is keyed by the canonical 24-hex text of an ObjectId; the 12-byte ObjectId form and other id types are not modelled.
- Random uuids, `_tmpId` values, generated ObjectIds and the handlers' `deletedAt` time are parameters.
- DocumentStore.Collection.Insert stores the payload as given: schema defaults (`deleted: false`, `deletedAt: null`, `isActive: true`) and the automatic `createdAt`/`updatedAt` timestamps of `timestamps: true` are not added.
- CrudHandlers.Handlers.Remove tests whether the stored document has a `deleted` field; the source tests `"deleted" in doc` on a hydrated document, which also sees schema paths the stored document lacks. Schema paths are not modelled.
- ObjectUtils.Pick models objects by their own keys only: JavaScript's `k in obj` also finds inherited keys such as `toString`, which the source would copy and the model does not.
- OpenApiRegistry.Registry.RegisterSchema models the schema table by its own keys only: the source's truthiness test also skips inherited names such as `constructor`, which the model registers.
- Zod library formats (`email`, `e164`) and schema `parse` are parameters. The shapes of `BaseEntityZ` fields are not modelled; all of them are optional or defaulted.
- ContactSchema.ContactIssues skips the refinement only for a missing name, the one type issue the contact fields can have. Fields are modelled as strings or absent, so type issues on the other fields are not modelled.
- OpenApiRegistry.ZodToOpenApi does not model a `ZodString` carrying `_def.values`, which current Zod never sets.
- OpenApiRegistry.Registry.RegisterZodSchema does not model the `catch` branch: the conversion cannot throw on the node datatype.
- CrudHandlers.LimitAsWritten and CrudHandlers.Skip take integers; `Number(...)` of a non-numeric query gives NaN, which is not modelled.
- ContactForm.PhoneFieldChanged takes a natural index; a negative index (which JavaScript would store as a property) is not modelled. Non-object phone entries are not modelled either.
- ContactForm.FormatError does not model symbols or objects with a custom `toString`; `JSON.stringify` is a parameter.
- ContactForm.FormatApiError never takes the "Request failed" fallback, because an `ApiError` message is always a string.
- The `loading` flag, the IntersectionObserver and the rendering of the infinite list are left out; the pager's methods are the effects those trigger.
- The pre-submit `safeParse` of the whole payload is modelled through ContactSchema on the contact fields only.
- The unwrap loop of `zod-to-mongoose.ts` cannot loop forever in the model: every wrapper in the node datatype has an inner node.

## Findings

| source | as written | input that shows it | evidently intended | confidence | as-written member | corrected member |
|---|---|---|---|---|---|---|
| backend/src/modules/contacts/contacts.service.ts:231 | `created?.id` is read from the sanitized plain object, which has no `id` virtual, so `create` returns before syncing shares and formatting | any create with a non-empty `sharedWith` | shares are synced and the created contact is returned with its share users | medium, not executed | Contacts.ContactsService.CreateAsWritten | Contacts.ContactsService.Create |
| backend/src/modules/contacts/contacts.service.ts:286-289 | duplicates are removed before the ObjectId cast lower-cases the ids | `sharedWith = ["AAAAAAAAAAAAAAAAAAAAAAAA", "aaaaaaaaaaaaaaaaaaaaaaaa"]` on a contact with no shares | one share per user; the duplicate insert fails on the unique index | high, not executed | ContactShares.NormalizeAsWrittenDuplicates | ContactShares.Normalize |
| backend/src/controllers/crud.ts:84 | only the upper cap is applied, and `limit(0)` means no limit | `?limit=0` on a collection with more than 100 live documents | at most 100 documents per page | high, not executed | CrudHandlers.ZeroLimitUncapped | CrudHandlers.PageBounds |
| backend/src/modules/contacts/contacts.service.ts:222-235 | the owner filter of `syncShares` compares against the owner text of the payload, while the contact stores its lower-cased ObjectId (reached once the line-231 check is corrected) | owner `"AAAAAAAAAAAAAAAAAAAAAAAA"` with `sharedWith = ["aaaaaaaaaaaaaaaaaaaaaaaa"]` | the contact is never shared with its own owner | medium, not executed | ContactShares.OwnerFilterAsWritten | Contacts.ContactsService.Create |
