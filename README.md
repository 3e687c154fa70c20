# Carwash56 booking backend — a Dafny model

Carwash56 is a small Express and MongoDB backend for a mobile car-wash
service. Clients book a wash, staff list and update missions, and admins
manage the catalog. This project models the core of that backend and proves
properties of the model.

## What is modelled

- **The raw booking routes.** `POST /api/bookings`, `GET /api/bookings`,
  `PATCH /api/bookings/:id/status` and `GET /api/bookings/:id/receipt` write
  to, and read from, the `bookings` collection directly.
  - The create route checks the required fields and looks up the service.
  - It parses the client's timeslot text: `"DD/MM/YYYY HHh"` becomes the
    arguments of `new Date(year, month - 1, day, hour, 0, 0)`.
  - It stores a snapshot of the service inside the booking.
  - The status and receipt routes try the id as an ObjectId first, then as a
    raw string.
- **The schema-path booking controller.** `createBooking` goes through
  BookingSchema's validators. `getMyBookings` and `listAllBookings` filter and
  sort.
- **The three schemas.** Booking, User and Service are datatypes with
  validity predicates: required fields, enums, defaults and unique indexes.
- **Authentication and authorisation.** The model covers Bearer-header
  extraction, the admin gate, register and login.
- **The promotion script** `makeAdmin.js`.

Modelling choices:

- **Collections.** Each collection is a class whose `docs: seq<…>` field
  keeps insertion order; the listings sort that order.
  - A unique index on `_id` is the class invariant; users also have one on
    email.
  - Insertion is the only way storage can fail: a duplicate key.
- **Documents.** Every document is a flat record whose fields are `Option`s,
  because the two write paths store different shapes in the same
  collection.
  - `_id` is `Oid(ObjectId) | Str(string)`.
  - An ObjectId is 24 hexadecimal digits, stored in lower case.
- **JavaScript semantics**, written out:
  - `split` on one character;
  - `replace` of the first occurrence;
  - `parseInt`, with an optional sign, the `0x` prefix, the longest prefix
    of digits, and NaN modelled as `None`;
  - truthiness of a string.
- **Dates** are `InvalidDate | Calendar(year, monthIndex, day, hour, minute,
  second)`, with no normalisation.
  - Sorting is MongoDB's: a missing or null value is first in ascending
    order.
  - An invalid date is placed just above null.
  - Timestamps are an integer `now` passed in.
- **Crypto.** bcrypt and jsonwebtoken are function-valued parameters:
  `hash`, `compare`, `sign` and `verify`.
- **Database-assigned values.** The ObjectId a new document receives (`newId`)
  and the day a receipt is issued (`today`) are parameters.
- **Deviations from the code.**
  - The raw route's `new Date()` becomes `now`.
  - The driver's `findOneAndUpdate` result is taken to have the shape the
    code assumes: a `value` that is the updated document or absent.

Each handler has a specification function (`CreateRawOutcome`,
`StatusUpdateOutcome`, `ReceiptOutcome`, `CreateBookingOutcome`,
`CreateServiceOutcome`, `RegisterOutcome`, `LoginOutcome`, `Authenticate`,
`Promote`). The imperative handler is a method that follows the source's
steps, and its `ensures` ties the reply and the new collection to that
function. The properties are lemmas about the functions.

## Model

| member | source | states |
|---|---|---|
| Strings.Split | src/routes/bookingRoutes.js:58-59 | `String.prototype.split` on one character: at least one piece, none containing the separator |
| Strings.JoinSplit | src/routes/bookingRoutes.js:58-59 | splitting loses nothing: joining the pieces back gives the original text |
| Strings.SplitSingle | src/routes/bookingRoutes.js:58 | text splits into a single piece exactly when it holds no separator, and that piece is the text |
| Strings.FirstTwoWords | src/routes/bookingRoutes.js:58 | the first two space-separated words of "a b rest" are a and b, whatever words follow |
| Strings.ReplaceFirst | src/routes/bookingRoutes.js:60 | `replace("h", "")` removes one character when an h occurs, else nothing |
| Strings.ReplaceFirstAt | src/routes/bookingRoutes.js:60 | it is the FIRST h that goes, wherever it is |
| Strings.ParseInt | src/routes/bookingRoutes.js:62-65 | `parseInt`: optional sign, `0x` switching to base 16, the longest digit run, NaN (`None`) when that run is empty; its behaviour is stated by the lemmas below |
| Strings.ParseIntDecimal | src/routes/bookingRoutes.js:62-65 | text starting with a decimal digit (and not "0x") is read as the value of its leading digit run |
| Strings.ParseIntDigits | src/routes/bookingRoutes.js:62-65 | a digit string, leading zeros included, is read as its decimal value |
| Strings.ParseIntMinus | src/routes/bookingRoutes.js:62-65 | a leading "-" before unsigned text negates what `parseInt` reads from the rest, NaN staying NaN |
| Strings.ParseIntNegative | src/routes/bookingRoutes.js:62-65 | "-" and a decimal rendering read as minus that number |
| Strings.ParseIntHex | src/routes/bookingRoutes.js:62-65 | a "0x" prefix switches to base 16: the hexadecimal digits after it read as their value |
| Strings.NegativeHexExample | src/routes/bookingRoutes.js:62-65 | both branches together: "-0x1A" reads as -26 |
| Strings.ParseIntLeadingDigits | src/routes/bookingRoutes.js:62-65 | `parseInt` reads a number's decimal rendering and stops at the first non-digit (except "0x…") |
| Strings.ParseIntNoDigits | src/routes/bookingRoutes.js:62-65 | text without a leading digit or sign is NaN |
| Strings.DigitsValueFormat | src/routes/bookingRoutes.js:62-65 | digit value and decimal rendering are inverse |
| Timeslot.MakeDate | src/routes/bookingRoutes.js:61-68 | `new Date(y, m, d, h, 0, 0)`: an Invalid Date as soon as one argument is NaN, else those components |
| Timeslot.ParseTimeslot | src/routes/bookingRoutes.js:56-71 | the timeslot parse: null without an hour token, else `new Date(year, month - 1, day, hour, 0, 0)` over the `parseInt`s of the fields, its components kept as given (the time-value range is under Left out); stated by the lemmas below |
| Timeslot.NullIffNoSpace | src/routes/bookingRoutes.js:56-71 | the parsed date is null exactly when the text has no space (the only way `.replace` throws) |
| Timeslot.DigitSlot | src/routes/bookingRoutes.js:58-68 | "DD/MM/YYYY HHh" over any digit strings, zero-padded or not, with any further tokens, parses to the calendar components of their decimal values (Y, M-1, D, H, 0, 0), with no range limit |
| Timeslot.WellFormedTimeslot | src/routes/bookingRoutes.js:58-68 | "D/M/Y Hh" written without leading zeros, with any further tokens, parses to the calendar components (Y, M-1, D, H, 0, 0), with no range limit |
| Timeslot.MissingDateFieldIsInvalid | src/routes/bookingRoutes.js:59-68 | fewer than three "/"-fields give an Invalid Date, not null |
| Timeslot.ExampleSlot | src/routes/bookingRoutes.js:21 | "30/10/2025 14h" is 30 October 2025 14:00 (month index 9) |
| Timeslot.PaddedSlot | src/routes/bookingRoutes.js:21 | the documented zero-padded form "05/03/2025 09h" is 5 March 2025 09:00 (month index 2) |
| Timeslot.GarbageSlot | src/routes/bookingRoutes.js:69-71 | "garbage" gives null |
| Timeslot.NonNumericSlotIsInvalid | src/routes/bookingRoutes.js:61-68 | "demain 14h" gives an Invalid Date, not null |
| ObjectIds.Cast | src/routes/bookingRoutes.js:42 | `new ObjectId(s)` succeeds exactly on 24 hex digits, and lower-cases them |
| ObjectIds.CastHex | src/routes/bookingRoutes.js:42 | an ObjectId's hex rendering casts back to it |
| ObjectIds.CastIdempotent | src/routes/bookingRoutes.js:42 | casting the rendering of a cast gives the same ObjectId |
| ObjectIds.Candidates | src/routes/bookingRoutes.js:149-172 | the keys an id is tried as: the ObjectId first when it casts, the raw string always last |
| ObjectIds.CandidatesOfHex | src/routes/bookingRoutes.js:200-220 | a rendered ObjectId is tried as that ObjectId, then as the string |
| Sorting.SortBy | src/routes/bookingRoutes.js:123 | `.sort()`: the result is a permutation of the input, ordered by the comparator |
| Sorting.Insert | src/routes/bookingRoutes.js:123 | inserting into a sorted sequence keeps it sorted and adds exactly that element |
| Sorting.Filter | src/controllers/serviceController.js:4 | a query filter: each element kept exactly as many times as stored when it matches, never otherwise |
| Dates.LexTotal | src/controllers/bookingController.js:49 | the order on date components is total |
| Dates.LexTransitive | src/controllers/bookingController.js:49 | and transitive |
| Dates.DateFieldLeqIsTotalPreorder | src/controllers/bookingController.js:49 | MongoDB's ascending order on an optional date is a total preorder |
| BookingModel.BookingValid | src/models/Booking.js:3-34 | BookingSchema's validation: customer, an ObjectId service reference, non-empty carMake, carModel and locationAddress, a valid scheduledAt and a totalPriceEUR, status and paymentStatus in their enums; stated by the lemmas below |
| BookingModel.DefaultsSatisfyEnums | src/models/Booking.js:16-30 | status defaults to "pending", paymentStatus to "unpaid"; defaults keep a document's validity |
| BookingModel.OptionalFields | src/models/Booking.js:10-31 | carColor, locationNotes, assignedWasher and paymentIntentId do not affect validity |
| BookingModel.StatusOutsideEnumInvalid | src/models/Booking.js:16-20 | a status outside the five allowed values fails validation |
| BookingModel.Find | src/routes/bookingRoutes.js:211-219 | `findOne({ _id })` finds a document exactly when one has that key, and returns one with it |
| BookingModel.FindAt | src/routes/bookingRoutes.js:211-219 | with unique ids it returns the document at the key's position |
| BookingModel.SetStatus | src/routes/bookingRoutes.js:156 | `$set: { status }` changes that field of the matching document and nothing else |
| BookingModel.SetStatusKeepsIds | src/routes/bookingRoutes.js:156 | setting a status keeps every `_id`, hence their uniqueness |
| BookingModel.NewerFirst | src/routes/bookingRoutes.js:123 | `{ createdAt: -1 }`: newest first, a document without createdAt last |
| BookingModel.NewerFirstIsTotalPreorder | src/routes/bookingRoutes.js:123 | `{ createdAt: -1 }` is a total preorder |
| BookingModel.SoonerFirst | src/controllers/bookingController.js:49 | `{ scheduledAt: 1 }`: null first, then an Invalid Date, then calendar order |
| BookingModel.SoonerFirstIsTotalPreorder | src/controllers/bookingController.js:49 | `{ scheduledAt: 1 }` is a total preorder |
| BookingModel.BookingCollection.InsertOne | src/routes/bookingRoutes.js:97-99 | inserting appends the document unless its `_id` is taken; the unique index is kept |
| BookingModel.BookingCollection.FindOneAndSetStatus | src/routes/bookingRoutes.js:152-158 | the collection becomes `SetStatus` of the old one; the reply is the updated document, present exactly when the key existed |
| BookingRoutes.HasRequiredFields | src/routes/bookingRoutes.js:26-33 | the route's minimum check: fullName, phone, address, carMake, timeslot and serviceId all truthy; carModel and carColor are not checked |
| BookingRoutes.RawBookingDocument | src/routes/bookingRoutes.js:74-94 | the inserted document: client fields, address as locationAddress, the text verbatim beside its parse, the service snapshot, its price or 0 as total, "pending", createdAt now; stated by `RawCreateSuccess` |
| BookingRoutes.CreateRawOutcome | src/routes/bookingRoutes.js:12-112 | the raw create: 400 for missing fields, an uncastable serviceId or a missing service, else one snapshot document appended; stated by the lemmas below |
| BookingRoutes.CreateRaw | src/routes/bookingRoutes.js:12-112 | the create handler's reply and new collection are `CreateRawOutcome` of the old collection |
| BookingRoutes.MissingFieldsRejected | src/routes/bookingRoutes.js:26-37 | 400 "Missing required fields" exactly when fullName, phone, address, carMake, timeslot or serviceId is missing or empty, and nothing is inserted |
| BookingRoutes.CarModelAndColorOptional | src/routes/bookingRoutes.js:19-20 | carModel and carColor never decide whether a create succeeds |
| BookingRoutes.ServiceIdErrors | src/routes/bookingRoutes.js:40-53 | an uncastable serviceId is 400 "Invalid serviceId"; a castable one without a service is 400 "Service not found"; nothing is inserted |
| BookingRoutes.RawCreateSuccess | src/routes/bookingRoutes.js:74-105 | on success one document is appended with status "pending", the service's name, price and duration as snapshot, its price or 0 as total, the timeslot text verbatim and its parse |
| BookingRoutes.CreateAddsAtMostOne | src/routes/bookingRoutes.js:97-111 | a create adds exactly one document on success and none otherwise |
| BookingRoutes.RawCreateSucceedsIff | src/routes/bookingRoutes.js:26-105 | the raw create succeeds exactly when the required fields are present, the serviceId casts and names a service, and the new `_id` is free |
| BookingRoutes.UnparsedSlotStillBooks | src/routes/bookingRoutes.js:56-82 | a request that passes the field and service checks books even when its timeslot has no space, with a null date and the text verbatim |
| BookingRoutes.RawDocumentBypassesSchema | src/routes/bookingRoutes.js:74-94 | a raw document has no customer and so is one BookingSchema would refuse |
| BookingRoutes.ListBookings | src/routes/bookingRoutes.js:118-126 | the list holds every booking as often as stored, newest `createdAt` first |
| BookingRoutes.MatchedKey | src/routes/bookingRoutes.js:150-172 | the key an id reaches: the ObjectId when a document has it, else the raw string; none when neither matches |
| BookingRoutes.StatusUpdateOutcome | src/routes/bookingRoutes.js:140-190 | the status update: 400 without a status, the ObjectId attempt, then the raw-string attempt, 404 when both miss; stated by the lemmas below |
| BookingRoutes.UpdateStatus | src/routes/bookingRoutes.js:140-190 | the status handler's reply and new collection are `StatusUpdateOutcome` of the old collection, across both attempts |
| BookingRoutes.SetStatusMissing | src/routes/bookingRoutes.js:152-172 | an attempt whose key matches nothing changes nothing |
| BookingRoutes.FindSetStatus | src/routes/bookingRoutes.js:157 | `returnDocument: "after"` returns the old document with its new status |
| BookingRoutes.MissingStatusRejected | src/routes/bookingRoutes.js:145-147 | a missing or empty status is 400 "Missing status" and changes nothing |
| BookingRoutes.StatusUpdateNotFound | src/routes/bookingRoutes.js:174-178 | 404 "Booking not found (after both tries)" exactly when no candidate key matches, and nothing changes |
| BookingRoutes.StatusUpdateChangesOnlyStatus | src/routes/bookingRoutes.js:150-183 | on success exactly one document, one the id reaches, changes, and only its status, to the given string |
| BookingRoutes.RawStringIdReachable | src/routes/bookingRoutes.js:164-172 | a booking with a string `_id` is updated through that string |
| BookingRoutes.ObjectIdTriedFirst | src/routes/bookingRoutes.js:151-164 | when both the ObjectId and its rendering are `_id`s, the ObjectId document is the one updated |
| BookingRoutes.StatusUpdateKeepsSnapshots | src/routes/bookingRoutes.js:156 | a status update leaves every service snapshot and total price as it was |
| BookingRoutes.LookupWithFallback | src/routes/bookingRoutes.js:200-220 | the receipt lookup finds a stored document by the key `MatchedKey` picks (the ObjectId before the string), and finds none exactly when no candidate matches |
| BookingRoutes.ReceiptObjectIdFirst | src/routes/bookingRoutes.js:211-220 | when both an ObjectId and its rendering are `_id`s, the receipt is the ObjectId document's |
| BookingRoutes.ReceiptOutcome | src/routes/bookingRoutes.js:196-259 | 404 "Booking not found" when the lookup misses, else the receipt of the booking found; stated by `GetReceipt` and the lemmas below |
| BookingRoutes.BuildReceipt | src/routes/bookingRoutes.js:226-250 | the receipt's blocks built from the booking; stated by `ReceiptProjection` |
| BookingRoutes.GetReceipt | src/routes/bookingRoutes.js:196-259 | the receipt handler's reply is `ReceiptOutcome`; 404 "Booking not found" exactly when nothing matches; it has no `modifies`, so it changes nothing |
| BookingRoutes.ReceiptProjection | src/routes/bookingRoutes.js:226-250 | the receipt copies client, vehicle and timeslot fields, takes name and duration from the snapshot and the price from `totalPriceEUR`, company "Carwash56" |
| BookingRoutes.SchemaBookingReceiptHasNoServiceName | src/routes/bookingRoutes.js:241-245 | a booking that passed BookingSchema holds a reference, so its receipt has no service name or duration |
| BookingRoutes.ReceiptAfterCreate | src/routes/bookingRoutes.js:74-105 | the receipt of a booking just created, by its new id, shows "pending", the snapshot and price taken at creation, and the client's text |
| BookingController.ServiceRefOf | src/controllers/bookingController.js:18 | the `service` path is set exactly when the given id casts to an ObjectId |
| BookingController.ModelBookingDocument | src/controllers/bookingController.js:16-28 | the document `Booking.create` builds: the caller as customer, the body's fields under the schema's names, "pending" and "unpaid", timestamps now; stated by `InitialStatuses` and `BodyFieldsCopied` |
| BookingController.CreateBookingOutcome | src/controllers/bookingController.js:3-35 | the schema-path create: a document owned by the caller, validated by BookingSchema, inserted; stated by the lemmas below |
| BookingController.CreateBooking | src/controllers/bookingController.js:3-35 | the handler's reply and new collection are `CreateBookingOutcome` of the old collection |
| BookingController.CreateBookingSucceedsIff | src/controllers/bookingController.js:16-33 | success exactly when the caller and service ids cast, carMake, carModel and address are non-empty, a valid date and a price are given, and the `_id` is free; otherwise 500 "Erreur création réservation" with nothing stored |
| BookingController.CustomerIsCaller | src/controllers/bookingController.js:17 | the customer is the authenticated caller's id |
| BookingController.BodyCannotChooseOwnerOrStatus | src/controllers/bookingController.js:5-14 | a body's customer, status or paymentStatus changes nothing |
| BookingController.InitialStatuses | src/controllers/bookingController.js:26-27 | a new booking is "pending" and "unpaid", both timestamps at creation |
| BookingController.BodyFieldsCopied | src/controllers/bookingController.js:16-25 | price and date are the body's unchanged, address becomes locationAddress and notes locationNotes |
| BookingController.MyBookings | src/controllers/bookingController.js:37-43 | the query has a result exactly when the caller's id is an ObjectId |
| BookingController.MyBookingsExactlyMine | src/controllers/bookingController.js:38-40 | exactly the caller's bookings, as often as stored, newest first |
| BookingController.RawBookingsInNoOnesList | src/controllers/bookingController.js:38 | a booking without a customer is in no caller's list |
| BookingController.AllBookings | src/controllers/bookingController.js:45-52 | every booking as often as stored, earliest `scheduledAt` first |
| ServiceModel.ServiceValid | src/models/Service.js:3-12 | ServiceSchema's validation: non-empty name and description, priceEUR and durationMin given |
| ServiceModel.WithDefaults | src/models/Service.js:9 | `active` defaults to true and nothing else changes |
| ServiceModel.FindById | src/routes/bookingRoutes.js:47-49 | the service lookup finds a document exactly when one has the key |
| ServiceModel.ServiceCollection.Insert | src/controllers/serviceController.js:11 | insertion appends unless the `_id` is taken |
| ServiceController.ListServices | src/controllers/serviceController.js:3-6 | the active services sorted by price; stated by `ListServicesExact` |
| ServiceController.CheaperFirst | src/controllers/serviceController.js:4 | `{ priceEUR: 1 }`: cheapest first, a service without a price before all others |
| ServiceController.Listed | src/controllers/serviceController.js:4 | `{ active: true }` matches a stored true only |
| ServiceController.CheaperFirstIsTotalPreorder | src/controllers/serviceController.js:4 | `{ priceEUR: 1 }` is a total preorder |
| ServiceController.ListServicesExact | src/controllers/serviceController.js:3-6 | exactly the services with `active` true, as often as stored, cheapest first |
| ServiceController.NewServiceDocument | src/controllers/serviceController.js:11-17 | the document `Service.create` builds: the body's four fields, active true, timestamps now; stated by `CreateServiceSucceedsIff` |
| ServiceController.CreateServiceOutcome | src/controllers/serviceController.js:8-22 | `Service.create` from the body's four fields, 500 "Cannot create service" when validation or the `_id` fails; stated by `CreateServiceSucceedsIff` |
| ServiceController.CreateService | src/controllers/serviceController.js:8-22 | the handler's reply and new collection are `CreateServiceOutcome` of the old collection |
| ServiceController.CreateServiceSucceedsIff | src/controllers/serviceController.js:10-21 | success exactly when name and description are non-empty, price and duration given and the `_id` free; the service is active, with the body's four fields; otherwise 500 "Cannot create service" |
| ServiceController.CreatedServiceIsListed | src/controllers/serviceController.js:4-17 | a service just created appears in the catalog listing |
| UserModel.UserValid | src/models/User.js:3-17 | UserSchema's validation: non-empty fullName, phone, email and passwordHash, the role read in its enum |
| UserModel.RoleOf | src/models/User.js:10-14 | the role a user reads as, "client" when none is stored; stated by `RoleDefaultsToClient` |
| UserModel.AddressOptional | src/models/User.js:8 | the address does not affect validity |
| UserModel.RoleDefaultsToClient | src/models/User.js:10-14 | a missing role reads as "client", which the enum accepts |
| UserModel.IndexOfEmail | src/controllers/authController.js:9 | `findOne({ email })` returns the first user holding the email, or none |
| UserModel.IndexOfEmailFinds | src/controllers/authController.js:51-52 | a user is found exactly when one holds the email |
| UserModel.IndexOfEmailAppend | src/controllers/authController.js:16-23 | appending a user keeps earlier matches and is the match of a new email |
| UserModel.IndexOfEmailSameEmails | makeAdmin.js:23-31 | the lookup depends only on emails |
| UserModel.UserCollection.Insert | src/models/User.js:7 | insertion appends unless the `_id` or the email is taken; both unique indexes are kept |
| UserModel.UserCollection.SetRole | makeAdmin.js:30-31 | only the role of that one document changes |
| AuthMiddleware.Authenticate | src/middleware/authMiddleware.js:3-21 | 401 without a header or token, 401 "Invalid or expired token" when verification fails, else the payload; stated by the lemmas below |
| AuthMiddleware.BearerToken | src/middleware/authMiddleware.js:9-12 | the token is the second space-separated word, non-empty, present exactly when there is one |
| AuthMiddleware.RequireAuth | src/middleware/authMiddleware.js:3-21 | the decision is `Authenticate`; `req.user` becomes the payload on success and is untouched on a denial |
| AuthMiddleware.MissingHeaderRejected | src/middleware/authMiddleware.js:5-7 | no header is 401 "Missing Authorization header" |
| AuthMiddleware.PassIff | src/middleware/authMiddleware.js:14-17 | a request passes, with a given payload, exactly when its token verifies to it |
| AuthMiddleware.AnySchemeAccepted | src/middleware/authMiddleware.js:9 | the first word is never checked to be "Bearer"; later words are ignored |
| AuthMiddleware.EmptyTokenRejected | src/middleware/authMiddleware.js:10-12 | a header with no second word, or an empty one, is 401 "Invalid Authorization header" |
| AuthMiddleware.RequireAdmin | src/middleware/authMiddleware.js:23-28 | passes exactly when a user is attached whose role is exactly "admin"; otherwise 403 "Admin only" |
| AuthMiddleware.NonAdminsRefused | src/middleware/authMiddleware.js:24-26 | clients, washers, other roles and anonymous requests get 403 |
| AuthMiddleware.AdminRouteIff | src/middleware/authMiddleware.js:3-28 | both gates pass exactly when the token verifies to an admin payload |
| AuthController.PublicOf | src/controllers/authController.js:33-39 | the reply's user: id, fullName, email, phone and role, no password hash |
| AuthController.SessionFor | src/controllers/authController.js:25-40 | the token signs `{ id, role }` for seven days, beside the public user; stated by `RegisteredUser` and `LoginSuccess` |
| AuthController.NewUserDocument | src/controllers/authController.js:16-23 | the document `User.create` builds: the body's fields, the hash in place of the password, role "client" |
| AuthController.RegisterOutcome | src/controllers/authController.js:5-45 | register: 400 "Email déjà utilisé" on a taken email, 500 without a password or when the user fails validation or its `_id` is taken, else a hashed "client" user inserted and a session returned; stated by the lemmas below |
| AuthController.Register | src/controllers/authController.js:5-45 | the handler's reply and new collection are `RegisterOutcome` of the old collection |
| AuthController.RegisterTakenEmail | src/controllers/authController.js:9-12 | a taken email is 400 "Email déjà utilisé" and the users are unchanged |
| AuthController.RegisterKeepsEmailsUnique | src/controllers/authController.js:9-23 | register keeps emails and ids unique, adding one user on success and none otherwise |
| AuthController.RegisteredUser | src/controllers/authController.js:14-40 | a registered user is "client" whatever the body says and stores hash(password); the token signs {new id, "client"} for seven days; the reply user has no hash |
| AuthController.RegisterSucceedsIff | src/controllers/authController.js:9-44 | register succeeds exactly when the email is free, a password is given, the required fields are non-empty and the `_id` is free |
| AuthController.LoginOutcome | src/controllers/authController.js:47-77 | login: 400 "Identifiants invalides" on an unknown email or a rejected password, else a session for the user found; stated by the lemmas below |
| AuthController.LoginFailuresIdentical | src/controllers/authController.js:51-55 | an unknown email and a wrong password both give 400 "Identifiants invalides" |
| AuthController.LoginSuccess | src/controllers/authController.js:51-72 | a login answers with the user the email names, its role, a seven-day token and no hash, after `compare` accepted |
| AuthController.LoginAfterRegister | src/controllers/authController.js:5-72 | when `compare(p, hash(p))` holds, login right after register gives the same session |
| MakeAdmin.Promote | makeAdmin.js:12-45 | the script: exit 1 without an argument, without a user holding the email or when the promoted user fails validation on save, else that user's role set to "admin" and exit 0; stated by the lemmas below |
| MakeAdmin.Run | makeAdmin.js:12-45 | the script's exit code and new users are `Promote` of the old users |
| MakeAdmin.NoArgumentExits | makeAdmin.js:13-17 | without an email argument it exits 1 and changes nothing |
| MakeAdmin.UnknownUserExits | makeAdmin.js:23-28 | with no user holding the email it exits 1 and changes nothing |
| MakeAdmin.PromotionChangesOnlyRole | makeAdmin.js:23-36 | exit 0 exactly when the user exists and is valid once promoted; then its role, and nothing else, becomes "admin" |
| MakeAdmin.PromoteIdempotent | makeAdmin.js:30-31 | running the script twice ends as running it once |

## Left out

- Express wiring, the server files, CORS, static files, the dev seed routes and the service read-through routes: these are plumbing.
- `console` output: not modelled. The script's `process.exit` codes are modelled.
- The connection to MongoDB: not modelled.
- Transient storage errors and thrown driver errors: left out. The 500 paths are reached only through a duplicate key or a failed validation.
- The `details: String(err)` field of the raw routes' 500 replies: not modelled; a failure carries only its status and `error` text.
- `.populate` in `getMyBookings` and `listAllBookings`: not modelled. The listings return the stored documents with their references.
- BSON's ObjectId constructor accepts 12-byte strings and numbers; the model accepts only 24 hexadecimal digits.
- `parseInt` skipping leading white space: not modelled. No space can reach it, because the text was split on spaces; tabs and other white space were left out.
- JavaScript `Date` normalisation of an overflowing day, month or hour, and time zones: not modelled. The calendar components are kept as given.
- Timeslot.MakeDate: does not model the `Date` time-value limit of ±8.64e15 ms. A date past it, such as the year 300000 in "1/1/300000 10h" (the last valid year is 275760), a day above about 10^8 or an hour above about 2.4·10^9, is an Invalid Date in JavaScript and a `Calendar` in the model; `ParseTimeslot`, `DigitSlot` and `WellFormedTimeslot` inherit this. `parseInt`'s rounding of values above 2^53 is not modelled either; it is only reached by dates already past that limit.
- A parse that fails is stored as `InvalidDate`. The BSON driver writes an Invalid Date as time 0, so the database would hold the epoch (1970-01-01T00:00:00Z) and listings and receipts would read it back as that date, while the create reply shows `null`.
- The two-digit-year rule of the `Date` constructor: not modelled.
- The ordering of an Invalid Date: the model places it just above null in `{ scheduledAt: 1 }`.
- The order of documents that tie in a sort: the database leaves it open, and the model fixes one.
- Floating-point prices and durations: modelled as integers.
- Values that mongoose casts to String or Number on the schema paths, such as a number sent as carMake: those bodies are modelled after the cast.
- Non-string values in the raw route's body, which is stored without any cast: the model's fields are strings. A numeric `timeslot`, for which `split` throws so the date is null and the number is stored as `timeslotClientText`, cannot be written. Likewise the PATCH body's `status`: a number is truthy and would be `$set` as a number.
- The read-time defaults mongoose applies when it hydrates a document: `MyBookings` and `AllBookings` return the documents as stored, so a raw-route booking listed there shows no `paymentStatus` rather than "unpaid".
- `findOne({ email: undefined })`: the model takes the driver to send it as `{ email: null }`, which matches a user without an email.
- The salt of `bcrypt.hash`, and the `iat` and `exp` claims: not modelled, because `hash` and `sign` are opaque parameters.
- MakeAdmin.Run: does not model the `updatedAt` refresh that `save()` performs.
- MakeAdmin.Run: does not model the success messages the script prints.
- BookingController.MyBookings: a caller id that is no ObjectId makes the query throw with no handler, and the model gives `None` with no reply.
- The `{ ok: true, … }` wrappers around the replies: modelled as the payload alone.
- The driver's `findOneAndUpdate` result: its shape changed between driver versions. The code's assumption is modelled: a `value` that is the document or absent.
