# Person domain layer of a person-record service, in Dafny

This project models the in-memory domain layer of a service that keeps person records. It covers:

- **Guard helpers** (`ValidationExtensions`). These are pure precondition checks. Each one throws an argument exception exactly when its value is null, blank, not positive, a year outside [1900, current year], or a negative decimal.
- **Status lifecycle** (`Statusable`). There are four states: Active, Inactive, Blocked and Delete. Four derived predicates read the state. A guard makes a deleted entity reject `ChangeStatus`, and `Activate`, `Inactivate` and `Block` go through that guard.
- **Email value object**. The address is validated by a mail-address parser and then stored verbatim.
- **PersonDocument**. This is a (type, number) pair with a back-reference to its owner. Its equality looks at the pair only.
- **Person**. This is the aggregate. It has field setters and a name that is never blank. Its document list is add-if-absent / remove-first-equal. Its soft `Delete` marks the name and email with a `DELETED.<timestamp>.` prefix.
- **PersonBuilder**. This is a fluent staging object. `Build` refuses to run without a name and supplies a fresh id when none was staged.

Exceptions are values: `Outcome` (`Pass` | `Fail(error)`) for `void` calls and `Result<T>` for calls that return something. The error kinds are `ArgumentNull`, `ArgumentOutOfRange`, `Argument`, `InvalidOperation` and `CannotChangeStatusOfADeletedEntity`. C# nullable types (`string?`, `int?`, `DateTime?`) become `Nullable<T>` (`Null` | `Value(v)`).

Files, one module each:

- `primitives.dfy`: `Nullable`, `int32`, `Guid`, `DateTime`, `Timestamp`.
- `exceptions.dfy`: the error kinds and their messages.
- `validation_extensions.dfy`: the guards.
- `status_lifecycle.dfy`: `Status`, the class `Statusable`, and the semantics of runs of status calls.
- `value_object.dfy`: `Email`.
- `document_keys.dfy`: the pair view of a document list.
- `enums.dfy`: `Gender`, `MaritalStatus`.
- `entities.dfy`: `PersonDocument`, `Person`.
- `builders.dfy`: `PersonBuilder`.

Classes model the objects whose fields the code updates in place: `Statusable`, `PersonDocument`, `Person` and `PersonBuilder`. Their methods carry `modifies` clauses. They state their new state through `Data()` / `Staged()` snapshots, written as "old snapshot with these fields replaced".

## Behaviour of the code worth noting

- **Email is kept verbatim.** It is not trimmed or lower-cased (`PersonsService.Domain/ValueObject/Email.cs:17`). `ValueObject.NoNormalisation` states the consequence.
- **Person stores `Email` as a plain nullable string, and stores `Age`.** There is no Email value object inside `Person` and no derived age.
- **`Person.ChangeStatus` overrides the guarded base method with a plain assignment.** `Activate`, `Inactivate`, `Block` and `Delete` dispatch to that override, so on a `Person` none of them ever throws, and a deleted person can be reactivated. The model keeps this as written. `StatusLifecycle.OverrideDivergesFromGuard` and `Entities.DeletedPersonStaysMutable` exhibit it. `StatusLifecycle.DeleteIsAbsorbing` proves the base guard's behaviour for comparison.
- **`PersonBuilder.Build` calls a constructor that does not exist.** The call `new Person(id, name, gender, status, maritalStatus, picture, alias, jobTitle, dateOfBirth, nationality, naturality, email, notes, enterpriseId, documents)` matches no constructor in `Person.cs`, whose public constructor takes neither an id nor documents. The model builds against a stand-in constructor, `Entities.Person.constructor`, that stores every value it is given. The Age it receives from `Build` is null.
- **The namespace of the guards does not match.** `Person.cs`, `Email.cs` and `PersonBuilder.cs` import the namespace `PersonsService.Domain.Validations`, while the guards are declared in `PersonsService.Domain.Extensions`. The model takes those three files to call the guards of `ValidationExtensions.cs`.
- **`ThrowIfValidYear` throws when the year is NOT valid.** Both 1900 and the current year pass.

## Model

| member | source | states |
|---|---|---|
| `ValidationExtensions.AllWhiteSpace` | PersonsService.Domain/Extensions/ValidationExtensions.cs:19 | the blank test holds iff every character is a .NET white-space character (so the empty string is blank) |
| `ValidationExtensions.IsNullOrWhiteSpace` | PersonsService.Domain/Extensions/ValidationExtensions.cs:19 | `string.IsNullOrWhiteSpace`: true iff the value is null or every character is a white-space character; the empty string is blank |
| `ValidationExtensions.ThrowIfNullOrWhiteSpace` | PersonsService.Domain/Extensions/ValidationExtensions.cs:17-23 | throws ArgumentNull iff the value is null, empty or all white space; the caller's message if given, else the default naming `paramName` |
| `ValidationExtensions.ThrowIfNull` | PersonsService.Domain/Extensions/ValidationExtensions.cs:33-55 | both overloads: throws ArgumentNull iff the reference is null / `HasValue` is false; message as above |
| `ValidationExtensions.ThrowIfZeroOrNegative` | PersonsService.Domain/Extensions/ValidationExtensions.cs:66-72 | passes iff value >= 1; otherwise ArgumentOutOfRange with the given or default message |
| `ValidationExtensions.ThrowIfValidYear` | PersonsService.Domain/Extensions/ValidationExtensions.cs:81-88 | passes iff 1900 <= value <= current UTC year; otherwise ArgumentOutOfRange whose default message carries both bounds |
| `ValidationExtensions.ThrowIfNegative` | PersonsService.Domain/Extensions/ValidationExtensions.cs:97-103 | passes iff value >= 0 (zero accepted); otherwise ArgumentOutOfRange |
| `ValidationExtensions.GuardBoundaries` | PersonsService.Domain/Extensions/ValidationExtensions.cs:66-103 | 1 and not 0 is positive; 1900 and the current year pass, 1899 and the next year fail; 0 passes and -1 fails the negativity check |
| `StatusLifecycle.ExactlyOnePredicateHolds` | PersonsService.Domain/Core/Statusable.cs:11-14 | each of IsActive/IsInactive/IsBlocked/IsDeleted holds iff Status is its value, and exactly one holds |
| `StatusLifecycle.Statusable.IsActive` | PersonsService.Domain/Core/Statusable.cs:11 | true iff Status is Active |
| `StatusLifecycle.Statusable.IsInactive` | PersonsService.Domain/Core/Statusable.cs:12 | true iff Status is Inactive |
| `StatusLifecycle.Statusable.IsBlocked` | PersonsService.Domain/Core/Statusable.cs:13 | true iff Status is Blocked |
| `StatusLifecycle.Statusable.IsDeleted` | PersonsService.Domain/Core/Statusable.cs:14 | true iff Status is Delete |
| `StatusLifecycle.Statusable.ChangeStatus` | PersonsService.Domain/Core/Statusable.cs:16-24 | on a deleted entity throws CannotChangeStatusOfADeletedEntity and the status stays Delete; otherwise sets any requested status, Delete included |
| `StatusLifecycle.Statusable.Activate` | PersonsService.Domain/Core/Statusable.cs:26-29 | same outcome and new status as `ChangeStatus(Active)`, including the throw when deleted |
| `StatusLifecycle.Statusable.Inactivate` | PersonsService.Domain/Core/Statusable.cs:30-33 | same outcome and new status as `ChangeStatus(Inactive)` |
| `StatusLifecycle.Statusable.Block` | PersonsService.Domain/Core/Statusable.cs:34-37 | same outcome and new status as `ChangeStatus(Blocked)` |
| `StatusLifecycle.ChangeThenActivate` | PersonsService.Domain/Core/Statusable.cs:16-29 | two calls in a row on one object end at the status `GuardedRun` gives for that run; from Delete both throw and the status stays Delete |
| `StatusLifecycle.DeleteIsAbsorbing` | PersonsService.Domain/Core/Statusable.cs:16-37 | under the base guard, every sequence of ChangeStatus/Activate/Inactivate/Block calls leaves a deleted entity deleted |
| `StatusLifecycle.GuardedRunWithoutDelete` | PersonsService.Domain/Core/Statusable.cs:16-24 | off Delete no transition is forbidden: a run that never asks for Delete ends at the status its last call asked for (e.g. Blocked back to Active) |
| `StatusLifecycle.UnguardedRunEndsAtLastRequest` | PersonsService.Domain/Entities/Person.cs:98-101 | on a Person every run of status calls ends at its last request, whatever came before, Delete included |
| `StatusLifecycle.OverrideDivergesFromGuard` | PersonsService.Domain/Entities/Person.cs:98-101 | after Delete, Activate throws and keeps Delete under the base guard but yields Active on a Person |
| `ValueObject.IsValidEmailMeansParsedUnchanged` | PersonsService.Domain/ValueObject/Email.cs:20-31 | the check passes iff the parser accepts the text and its canonical address equals the input exactly |
| `ValueObject.IsValidEmail` | PersonsService.Domain/ValueObject/Email.cs:20-31 | true only when the parser gives the text back unchanged; false whenever the parser throws |
| `ValueObject.Create` | PersonsService.Domain/ValueObject/Email.cs:9-18 | null/blank input throws ArgumentNull; otherwise an invalid address throws Argument "Invalid email format."; success iff non-blank and valid, and then Address is the input verbatim |
| `ValueObject.Equals` | PersonsService.Domain/ValueObject/Email.cs:33-41 | true iff the operand is an Email equal to this one, that is with the same address; null and objects of other types give false |
| `ValueObject.GetHashCode` | PersonsService.Domain/ValueObject/Email.cs:43-46 | the string hash of the address, with the per-process hash as a parameter; `EqualEmailsHashAlike` gives its property |
| `ValueObject.ToString` | PersonsService.Domain/ValueObject/Email.cs:48-51 | the address; an Email built from it is this Email again |
| `ValueObject.EqualsIsAddressEquality` | PersonsService.Domain/ValueObject/Email.cs:33-41 | two Emails are equal iff their addresses are equal; null and objects of other types are never equal |
| `ValueObject.EqualEmailsHashAlike` | PersonsService.Domain/ValueObject/Email.cs:43-46 | equal Emails have equal hash codes under any per-process string hash |
| `ValueObject.ToStringRoundTrip` | PersonsService.Domain/ValueObject/Email.cs:48-51 | ToString returns the address, and building an Email from it gives back the same Email (construction is idempotent) |
| `ValueObject.NoNormalisation` | PersonsService.Domain/ValueObject/Email.cs:17 | two accepted inputs that differ at all (case, spacing) give unequal Emails |
| `DocumentKeys.IndexOf` | PersonsService.Domain/Entities/Person.cs:122 | the first position holding an equal pair, or -1 iff there is none |
| `DocumentKeys.AddIfAbsent` | PersonsService.Domain/Entities/Person.cs:108-115 | the pair is present afterwards; unchanged list when already present, otherwise appended at the end |
| `DocumentKeys.RemoveFirst` | PersonsService.Domain/Entities/Person.cs:122 | `List.Remove` on pairs: the list itself when the pair is absent, otherwise one element shorter; `RemoveFirstEffect` proves it is the first occurrence that goes |
| `DocumentKeys.RemoveFirstEffect` | PersonsService.Domain/Entities/Person.cs:117-124 | removing an absent pair is a no-op; a present one loses exactly its first occurrence (no equal pair before it), the rest keep their order |
| `DocumentKeys.AddIfAbsentKeepsNoDuplicates` | PersonsService.Domain/Entities/Person.cs:108-115 | adding keeps a duplicate-free list duplicate-free, and adding the same pair twice equals adding it once |
| `DocumentKeys.RemoveFirstKeepsNoDuplicates` | PersonsService.Domain/Entities/Person.cs:117-124 | removing keeps a duplicate-free list duplicate-free, and the pair is absent afterwards |
| `DocumentKeys.CallsKeepNoDuplicates` | PersonsService.Domain/Entities/Person.cs:108-124 | any sequence of AddDocument/RemoveDocument calls keeps a duplicate-free list duplicate-free |
| `DocumentKeys.CallsFromEmptyKeepNoDuplicates` | PersonsService.Domain/Entities/Person.cs:9 | from a new person's empty list, AddDocument/RemoveDocument alone never produce two equal documents |
| `Entities.PersonDocument.constructor` | PersonsService.Domain/Entities/PersonDocument.cs:13-17 | stores type and number exactly as given, without validation; no owner yet |
| `Entities.PersonDocument.Create` | PersonsService.Domain/Entities/PersonDocument.cs:19-22 | a new document holding exactly the given pair |
| `Entities.PersonDocument.ChangeDocument` | PersonsService.Domain/Entities/PersonDocument.cs:24-28 | overwrites both values unconditionally; the owner is unchanged |
| `Entities.PersonDocument.ChangePerson` | PersonsService.Domain/Entities/PersonDocument.cs:30-34 | null throws ArgumentNull and keeps the owner; otherwise the owner becomes the argument; the pair never changes |
| `Entities.PersonDocument.Equals` | PersonsService.Domain/Entities/PersonDocument.cs:36-45 | true iff the other document is not null and has the same (type, number) pair; identity and owner are ignored |
| `Entities.PersonDocument.GetHashCode` | PersonsService.Domain/Entities/PersonDocument.cs:47-50 | `HashCode.Combine` of type and number, with the per-process combiner as a parameter; `DocumentEqualityIsValueEquality` gives its property |
| `Entities.DocumentEqualityIsValueEquality` | PersonsService.Domain/Entities/PersonDocument.cs:36-50 | equal iff same (type, number), ignoring identity and owner; never equal to null; reflexive, symmetric, transitive; equal documents hash alike |
| `Entities.ExistsEqual` | PersonsService.Domain/Entities/Person.cs:110 | `List.Exists(doc.Equals)`: true iff some document of the list is value-equal to `doc`; `ExistsEqualIsKeyMembership` relates it to the pairs |
| `Entities.ExistsEqualIsKeyMembership` | PersonsService.Domain/Entities/Person.cs:110 | `Exists(doc.Equals)` holds iff the document's pair is among the list's pairs |
| `Entities.DeletedMarkIsNotBlank` | PersonsService.Domain/Entities/Person.cs:128 | a name marked `DELETED.<ts>.` is never blank and is 23 characters longer than before |
| `Entities.Person.constructor` | PersonsService.Domain/Builders/PersonBuilder.cs:102-118 | the constructor the builder calls: every field equals its argument, documents as given, name non-blank |
| `Entities.Person.Create` | PersonsService.Domain/Entities/Person.cs:27-58 | fails with ArgumentNull iff the name is null or blank; otherwise a fresh id, every field as given, status Active and marital None by default, no documents |
| `Entities.Person.RenameIt` | PersonsService.Domain/Entities/Person.cs:60-66 | blank name throws and changes nothing; otherwise sets exactly Name and Alias (alias may be null) |
| `Entities.Person.ChangeGender` | PersonsService.Domain/Entities/Person.cs:68-71 | sets only Gender |
| `Entities.Person.ChangeMaritalStatus` | PersonsService.Domain/Entities/Person.cs:73-76 | sets only MaritalStatus |
| `Entities.Person.ChangeJobTitle` | PersonsService.Domain/Entities/Person.cs:78-81 | sets only JobTitle |
| `Entities.Person.ChangeDateOfBirth` | PersonsService.Domain/Entities/Person.cs:83-86 | sets only DateOfBirth (null allowed) |
| `Entities.Person.ChangePicture` | PersonsService.Domain/Entities/Person.cs:88-91 | sets only Picture |
| `Entities.Person.ChangeNote` | PersonsService.Domain/Entities/Person.cs:93-96 | sets only Notes |
| `Entities.Person.ChangeStatus` | PersonsService.Domain/Entities/Person.cs:98-101 | sets only Status, unconditionally and without throwing, even from Delete |
| `Entities.Person.ChangeEnterprise` | PersonsService.Domain/Entities/Person.cs:103-106 | sets only EnterpriseId (null allowed) |
| `Entities.Person.Activate` | PersonsService.Domain/Core/Statusable.cs:26-29 | on a Person dispatches to the override: status becomes Active, never throws |
| `Entities.Person.Inactivate` | PersonsService.Domain/Core/Statusable.cs:30-33 | on a Person: status becomes Inactive, never throws |
| `Entities.Person.Block` | PersonsService.Domain/Core/Statusable.cs:34-37 | on a Person: status becomes Blocked, never throws |
| `Entities.Person.AddDocument` | PersonsService.Domain/Entities/Person.cs:108-115 | unchanged list when a value-equal document is present, else the argument appended; on pairs exactly AddIfAbsent; keeps the list duplicate-free; nothing else changes |
| `Entities.Person.RemoveDocument` | PersonsService.Domain/Entities/Person.cs:117-124 | silent no-op without a value-equal document; else the first such one is removed and the rest keep their order; on pairs exactly RemoveFirst |
| `Entities.Person.Delete` | PersonsService.Domain/Entities/Person.cs:126-132 | Name becomes `DELETED.ts1.Name`, Email `DELETED.ts2.Email` (null as empty text), Status Delete; never throws; name stays non-blank; other fields and documents unchanged |
| `Entities.DeletedPersonStaysMutable` | PersonsService.Domain/Entities/Person.cs:98-132 | after Delete, Activate and RenameIt both succeed on a Person |
| `Builders.IdToUse` | PersonsService.Domain/Builders/PersonBuilder.cs:100 | the staged id when it is not Guid.Empty, otherwise the fresh id; never Empty when the fresh id is not |
| `Builders.PersonBuilder.constructor` | PersonsService.Domain/Builders/PersonBuilder.cs:10-29 | stages name "", NotSpecified, Active, marital None, Guid.Empty, null optionals, no documents |
| `Builders.PersonBuilder.New` | PersonsService.Domain/Builders/PersonBuilder.cs:32 | a fresh builder holding the defaults |
| `Builders.PersonBuilder.WithName` | PersonsService.Domain/Builders/PersonBuilder.cs:36-42 | null/blank throws ArgumentNull and keeps the staged name; otherwise stages it and returns the same builder; a staged name is always "" or non-blank |
| `Builders.PersonBuilder.WithGender` | PersonsService.Domain/Builders/PersonBuilder.cs:44-48 | stages only the gender and returns the same builder |
| `Builders.PersonBuilder.WithOptionalData` | PersonsService.Domain/Builders/PersonBuilder.cs:50-67 | overwrites all ten optional values at once, an omitted argument resetting its value to null/None; nothing else changes |
| `Builders.PersonBuilder.WithStatus` | PersonsService.Domain/Builders/PersonBuilder.cs:69-73 | stages only the status |
| `Builders.PersonBuilder.WithExistingDocuments` | PersonsService.Domain/Builders/PersonBuilder.cs:75-79 | appends the whole collection in order, without de-duplication; null is ignored |
| `Builders.PersonBuilder.WithExistingId` | PersonsService.Domain/Builders/PersonBuilder.cs:81-85 | stages only the id |
| `Builders.PersonBuilder.Build` | PersonsService.Domain/Builders/PersonBuilder.cs:88-119 | throws InvalidOperation iff no name was staged, creating nothing; otherwise a new Person with the staged (or fresh) id and every staged value and document unchanged |
| `Builders.BuildWithoutNameFails` | PersonsService.Domain/Builders/PersonBuilder.cs:91-94 | `New().Build()` always fails with InvalidOperation |
| `Builders.BuildWithNameAndGender` | PersonsService.Domain/Builders/PersonBuilder.cs:36-119 | `New().WithName(n).WithGender(g).Build()` succeeds for every non-blank n, giving that name and gender, status Active, a fresh id and no documents |

## Left out

- **Clock reads.** The two `DateTime.Now` reads in `Delete` are the parameters `nameStamp` and `emailStamp`, which may differ. They are any fourteen digits; `yyyyMMddHHmmss` formatting is not modelled. `DateTime.UtcNow.Year` in `ThrowIfValidYear` is the parameter `currentYear`.
- **`Guid.NewGuid()`.** It is the parameter `freshId`, required not to be `Guid.Empty`.
- **The mail-address parser** (`System.Net.Mail.MailAddress`). It is a foreign library and stays a function parameter. The RFC 5322 address grammar is not modelled.
- **Hash values.** `string.GetHashCode` and `HashCode.Combine` are seeded per process, so they are parameters. Only "equal implies equal hash" is stated.
- **Exception message texts.** They become the `Message` variants. The one English text, "Invalid email format.", is kept.
- **Declaration-only files.** `CannotChangeStatusOfADeletedEntityException.cs` is the error variant `CannotChangeStatusOfADeletedEntity`. `IEntity.cs` (`Id`, `IsPersisted`, `IAuditing`) is persistence metadata and is not part of this model.
- **The base class `Entity<T>` is not part of this model.** It is taken not to replace the `Equals` overrides that `List.Exists` and `List.Remove` use.
- **The enumeration declarations are not part of this model.** Only the members the code names are named: `Gender.NotSpecified`, `MaritalStatus.None` and the four `Status` values. Any other member is carried by its number.
- **Inheritance.** `Person` holds its status in a `Statusable` object instead of inheriting it. Virtual dispatch is written out: `Person.Activate`, `Inactivate` and `Block` call `Person.ChangeStatus`. A person's status changes only through `Person`'s own methods. Calling the base methods on `Person.lifecycle` directly would apply the guard, which is a path C# never takes on a `Person`.
- **Runtime types of document operands.** `PersonDocument.Equals` takes a `PersonDocument?`. The `GetType()` comparison with subclasses, or with objects of other types, is not modelled. `List.Exists` and `List.Remove` only ever pass documents.
- **Null passed where the signature declares a non-nullable parameter and the code does not check.** Examples are `AddDocument(null)` and `ChangeJobTitle(null)`. Those parameters are non-null.
- **Builder document list.** `Build` hands the builder's own `List` to the constructor. The model passes a copy of its contents, so later aliasing between the builder and the person is not captured.
- **`System.Decimal` is a `real`.** Its 96-bit range and scale are not modelled. Only the sign test matters to `ThrowIfNegative`.
- **Strings are sequences of Unicode scalar values, not UTF-16 code units.** No white-space character is a surrogate, so the blank test is unaffected.
- **Known gaps, left as gaps.** The public `Status` setter bypasses the guard; `status` is a public field in the model as well. `ChangeDocument` on a document already in a person's list, or duplicates passed through `WithExistingDocuments`, can put two equal documents in one list. The duplicate-free property is stated only for `AddDocument` and `RemoveDocument`.
- `Entities.Person.RemoveDocument`: its contract does not repeat "the list stays duplicate-free"; this follows from its `RemoveFirst` postcondition by `DocumentKeys.RemoveFirstKeepsNoDuplicates`.
