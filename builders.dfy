/**
 * The fluent builder: configuration calls in any order and any number, then
 * `Build`, which refuses to run without a name and otherwise creates the person.
 */
module Builders {
  import opened Primitives
  import opened Exceptions
  import opened ValidationExtensions
  import opened StatusLifecycle
  import opened Enums
  import opened Entities

  /**
   * The ten optional values. `WithOptionalData` is the only call that writes
   * them, always all ten at once, and `Build` the only one that reads them, so
   * they are staged as one value.
   */
  datatype OptionalData = OptionalData(
    picture: Nullable<string>,
    alias: Nullable<string>,
    jobTitle: Nullable<string>,
    dateOfBirth: Nullable<DateTime>,
    nationality: Nullable<string>,
    naturality: Nullable<string>,
    email: Nullable<string>,
    notes: Nullable<string>,
    enterpriseId: Nullable<int32>,
    maritalStatus: MaritalStatus)

  /** Every optional value at its default: null, and MaritalStatus.None. */
  const NoOptionalData: OptionalData := OptionalData(Null, Null, Null, Null, Null, Null, Null, Null, Null, MaritalStatus.None)

  /** Everything the builder has staged. */
  datatype Staging = Staging(
    name: string,
    gender: Gender,
    optional: OptionalData,
    status: Status,
    uniqueId: Guid,
    documents: seq<PersonDocument>)

  /** What a new builder holds. */
  const Defaults: Staging := Staging("", NotSpecified, NoOptionalData, Status.Active, EmptyGuid, [])

  /** A staged name is either the initial empty text or a name `WithName` accepted. */
  predicate StagedNameIsSound(name: string) {
    name == "" || !IsNullOrWhiteSpace(Value(name))
  }

  /** The id `Build` gives the person: the staged one, or the fresh one when none was staged. */
  function IdToUse(staged: Guid, freshId: Guid): (id: Guid)
    ensures staged != EmptyGuid ==> id == staged
    ensures staged == EmptyGuid ==> id == freshId
    ensures freshId != EmptyGuid ==> id != EmptyGuid
  {
    if staged == EmptyGuid then freshId else staged
  }

  /** The person `Build` creates from a staging: every staged value passed on unchanged, no age. */
  function BuiltData(s: Staging, freshId: Guid): PersonData {
    var o := s.optional;
    PersonData(IdToUse(s.uniqueId, freshId), s.name, o.picture, o.alias, o.jobTitle, o.dateOfBirth, Null,
               s.gender, o.maritalStatus, o.nationality, o.naturality, o.email, o.notes, o.enterpriseId, s.status)
  }

  class PersonBuilder {
    var name: string
    var gender: Gender
    var optional: OptionalData
    var status: Status
    var uniqueId: Guid
    var documents: seq<PersonDocument>

    ghost predicate Valid()
      reads this
    {
      StagedNameIsSound(name)
    }

    function Staged(): Staging
      reads this
    {
      Staging(name, gender, optional, status, uniqueId, documents)
    }

    constructor ()
      ensures Valid() && Staged() == Defaults
    {
      name := "";
      gender := NotSpecified;
      optional := NoOptionalData;
      status := Status.Active;
      uniqueId := EmptyGuid;
      documents := [];
    }

    static method New() returns (b: PersonBuilder)
      ensures fresh(b) && b.Valid() && b.Staged() == Defaults
    {
      b := new PersonBuilder();
    }

    /** A blank name is rejected and the staged name stays; otherwise the name is staged. */
    method WithName(name: Nullable<string>) returns (r: Result<PersonBuilder>)
      requires Valid()
      modifies this
      ensures Valid()
      ensures r.Failure? <==> IsNullOrWhiteSpace(name)
      ensures r.Failure? ==> r.error == ArgumentNull("name", MustNotBeNullOrEmpty("name")) && Staged() == old(Staged())
      ensures r.Success? ==> r.value == this && Staged() == old(Staged()).(name := name.value)
    {
      var guard := ThrowIfNullOrWhiteSpace(name, "name");
      if guard.Fail? {
        return Failure(guard.error);
      }
      this.name := name.value;
      r := Success(this);
    }

    method WithGender(gender: Gender) returns (b: PersonBuilder)
      requires Valid()
      modifies this
      ensures Valid() && b == this
      ensures Staged() == old(Staged()).(gender := gender)
    {
      this.gender := gender;
      b := this;
    }

    /** Overwrites all ten optional values at once; an argument left out resets its value to null or None. */
    method WithOptionalData(picture: Nullable<string> := Null, alias: Nullable<string> := Null,
                            jobTitle: Nullable<string> := Null, dateOfBirth: Nullable<DateTime> := Null,
                            nationality: Nullable<string> := Null, naturality: Nullable<string> := Null,
                            email: Nullable<string> := Null, notes: Nullable<string> := Null,
                            enterpriseId: Nullable<int32> := Null, maritalStatus: MaritalStatus := MaritalStatus.None)
      returns (b: PersonBuilder)
      requires Valid()
      modifies this
      ensures Valid() && b == this
      ensures Staged() == old(Staged()).(optional := OptionalData(picture, alias, jobTitle, dateOfBirth, nationality,
                                                                  naturality, email, notes, enterpriseId, maritalStatus))
    {
      optional := OptionalData(picture, alias, jobTitle, dateOfBirth, nationality, naturality, email, notes,
                               enterpriseId, maritalStatus);
      b := this;
    }

    method WithStatus(status: Status) returns (b: PersonBuilder)
      requires Valid()
      modifies this
      ensures Valid() && b == this
      ensures Staged() == old(Staged()).(status := status)
    {
      this.status := status;
      b := this;
    }

    /** Appends the whole collection in order, without removing duplicates; a null collection is ignored. */
    method WithExistingDocuments(documents: Nullable<seq<PersonDocument>>) returns (b: PersonBuilder)
      requires Valid()
      modifies this
      ensures Valid() && b == this
      ensures documents.Null? ==> Staged() == old(Staged())
      ensures documents.Value? ==> Staged() == old(Staged()).(documents := old(this.documents) + documents.value)
    {
      if documents.Value? {
        this.documents := this.documents + documents.value;
      }
      b := this;
    }

    method WithExistingId(id: Guid) returns (b: PersonBuilder)
      requires Valid()
      modifies this
      ensures Valid() && b == this
      ensures Staged() == old(Staged()).(uniqueId := id)
    {
      uniqueId := id;
      b := this;
    }

    /**
     * Fails with `InvalidOperationException` exactly when no name was staged;
     * otherwise creates a person from the staged values, with the staged id or,
     * when none was staged, `freshId` (what `Guid.NewGuid()` returned).
     */
    method Build(freshId: Guid) returns (r: Result<Person>)
      requires Valid()
      requires freshId != EmptyGuid
      ensures r.Failure? <==> name == ""
      ensures r.Failure? ==> r.error == InvalidOperation(NameRequiredBeforeBuild)
      ensures r.Success? ==> fresh(r.value) && fresh(r.value.lifecycle) && r.value.Valid()
      ensures r.Success? ==> r.value.Data() == BuiltData(Staged(), freshId) && r.value.documents == documents
      ensures r.Success? ==> r.value.uniqueId != EmptyGuid
    {
      if name == "" {
        return Failure(InvalidOperation(NameRequiredBeforeBuild));
      }
      var idToUse := if uniqueId == EmptyGuid then freshId else uniqueId;
      var o := optional;
      var p := new Person(idToUse, name, gender, status, o.maritalStatus, o.picture, o.alias, o.jobTitle,
                          o.dateOfBirth, Null, o.nationality, o.naturality, o.email, o.notes, o.enterpriseId, documents);
      r := Success(p);
    }
  }

  /** `New().Build()` always fails: nothing was staged, so there is no name. */
  method BuildWithoutNameFails(freshId: Guid) returns (r: Result<Person>)
    requires freshId != EmptyGuid
    ensures r == Failure(InvalidOperation(NameRequiredBeforeBuild))
  {
    var b := PersonBuilder.New();
    r := b.Build(freshId);
  }

  /**
   * `New().WithName(n).WithGender(g).Build()` succeeds for every non-blank name
   * and yields a person with that name and gender, Active, without documents,
   * under the fresh id.
   */
  method BuildWithNameAndGender(n: string, g: Gender, freshId: Guid) returns (p: Person)
    requires !IsNullOrWhiteSpace(Value(n))
    requires freshId != EmptyGuid
    ensures p.name == n && p.gender == g && p.uniqueId == freshId
    ensures p.IsActive() && p.maritalStatus == MaritalStatus.None && p.documents == []
    ensures p.email.Null? && p.age.Null?
  {
    var b := PersonBuilder.New();
    var named := b.WithName(Value(n));
    var _ := b.WithGender(g);
    var r := b.Build(freshId);
    p := r.value;
  }
}
