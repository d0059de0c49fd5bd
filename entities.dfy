/**
 * The Person aggregate and its documents. They refer to each other (a document
 * points back at its owner), so they share one module, as they share one
 * namespace in the system.
 */
module Entities {
  import opened Primitives
  import opened Exceptions
  import opened ValidationExtensions
  import opened StatusLifecycle
  import opened DocumentKeys
  import opened Enums

  /** An identity document: a (type, number) pair plus a back-reference to its owner. */
  class PersonDocument {
    var person: Person?
    var documentType: int32
    var documentNumber: string

    /** Stores both values as given: the number's format is not checked. */
    constructor (documentType: int32, documentNumber: string)
      ensures this.documentType == documentType && this.documentNumber == documentNumber
      ensures person == null
    {
      this.documentType := documentType;
      this.documentNumber := documentNumber;
      person := null;
    }

    static method Create(documentType: int32, documentNumber: string) returns (d: PersonDocument)
      ensures fresh(d)
      ensures d.Key() == DocKey(documentType, documentNumber) && d.person == null
    {
      d := new PersonDocument(documentType, documentNumber);
    }

    /** The pair that equality and hashing look at. */
    function Key(): DocKey
      reads this
    {
      DocKey(documentType, documentNumber)
    }

    /** Overwrites both values, whatever they were; the owner stays. */
    method ChangeDocument(documentType: int32, documentNumber: string)
      modifies this
      ensures Key() == DocKey(documentType, documentNumber)
      ensures person == old(person)
    {
      this.documentType := documentType;
      this.documentNumber := documentNumber;
    }

    /** Rejects null and leaves the owner as it was; otherwise sets the owner. */
    method ChangePerson(person: Person?) returns (r: Outcome)
      modifies this
      ensures r.Fail? <==> person == null
      ensures r.Fail? ==> r.error == ArgumentNull("person", FrameworkDefault) && this.person == old(this.person)
      ensures r.Pass? ==> this.person == person
      ensures Key() == old(Key())
    {
      if person == null {
        return Fail(ArgumentNull("person", FrameworkDefault));
      }
      this.person := person;
      r := Pass;
    }

    /** `Equals(object)`: not null and the same pair; the identity and the owner are ignored. */
    predicate Equals(other: PersonDocument?): (r: bool)
      reads this, other
      ensures r <==> other != null && Key() == other.Key()
    {
      other != null && documentType == other.documentType && documentNumber == other.documentNumber
    }

    /** `HashCode.Combine` is seeded per process, so it is a parameter. */
    function GetHashCode(combine: (int32, string) -> int32): int32
      reads this
    {
      combine(documentType, documentNumber)
    }
  }

  /** Document equality is equality of the pairs, hence an equivalence relation, and equal documents hash alike. */
  lemma DocumentEqualityIsValueEquality(a: PersonDocument, b: PersonDocument, c: PersonDocument, combine: (int32, string) -> int32)
    ensures a.Equals(b) <==> a.Key() == b.Key()
    ensures !a.Equals(null)
    ensures a.Equals(a)
    ensures a.Equals(b) <==> b.Equals(a)
    ensures a.Equals(b) && b.Equals(c) ==> a.Equals(c)
    ensures a.Equals(b) ==> a.GetHashCode(combine) == b.GetHashCode(combine)
  {
  }

  /** The pairs of a list of documents, in order. */
  function KeysOf(docs: seq<PersonDocument>): (keys: seq<DocKey>)
    reads set d | d in docs
    ensures |keys| == |docs|
    ensures forall i | 0 <= i < |docs| :: keys[i] == docs[i].Key()
    decreases |docs|
  {
    if docs == [] then [] else [docs[0].Key()] + KeysOf(docs[1..])
  }

  /** `List.Exists(doc.Equals)`. */
  predicate ExistsEqual(docs: seq<PersonDocument>, doc: PersonDocument)
    reads (set d | d in docs), doc
  {
    exists i | 0 <= i < |docs| :: doc.Equals(docs[i])
  }

  /** Value equality against a list is membership of the pair among the list's pairs. */
  lemma ExistsEqualIsKeyMembership(docs: seq<PersonDocument>, doc: PersonDocument)
    ensures ExistsEqual(docs, doc) <==> doc.Key() in KeysOf(docs)
  {
    var keys := KeysOf(docs);
    if doc.Key() in keys {
      var i :| 0 <= i < |keys| && keys[i] == doc.Key();
      assert doc.Equals(docs[i]);
    }
  }

  /** Taking one document out of a list takes its pair out of the list's pairs. */
  lemma KeysOfWithout(docs: seq<PersonDocument>, i: nat)
    requires i < |docs|
    ensures KeysOf(docs[..i] + docs[i + 1..]) == KeysOf(docs)[..i] + KeysOf(docs)[i + 1..]
  {
    var rest := docs[..i] + docs[i + 1..];
    var keys := KeysOf(docs);
    var lhs := KeysOf(rest);
    var rhs := keys[..i] + keys[i + 1..];
    forall p | 0 <= p < |lhs|
      ensures lhs[p] == rhs[p]
    {
      if p < i {
        assert rest[p] == docs[p] && rhs[p] == keys[p];
      } else {
        assert rest[p] == docs[p + 1] && rhs[p] == keys[p + 1];
      }
    }
    assert lhs == rhs;
  }

  /** The text `Delete` writes: `DELETED.<timestamp>.<old text>`. */
  function DeletedMark(stamp: Timestamp, text: string): string {
    "DELETED." + stamp + "." + text
  }

  /** A deleted name is never blank, so `Delete` keeps the name invariant. */
  lemma DeletedMarkIsNotBlank(stamp: Timestamp, text: string)
    ensures !IsNullOrWhiteSpace(Value(DeletedMark(stamp, text)))
    ensures |DeletedMark(stamp, text)| == 23 + |text|
  {
    NotBlankWhenSomeCharIsNot(DeletedMark(stamp, text), 0);
  }

  /** Everything a person holds except its documents. */
  datatype PersonData = PersonData(
    uniqueId: Guid,
    name: string,
    picture: Nullable<string>,
    alias: Nullable<string>,
    jobTitle: Nullable<string>,
    dateOfBirth: Nullable<DateTime>,
    age: Nullable<int32>,
    gender: Gender,
    maritalStatus: MaritalStatus,
    nationality: Nullable<string>,
    naturality: Nullable<string>,
    email: Nullable<string>,
    notes: Nullable<string>,
    enterpriseId: Nullable<int32>,
    status: Status)

  /**
   * The aggregate root. Its status lives in the `Statusable` it is built with;
   * its own `ChangeStatus` writes that status directly, without the guard.
   */
  class Person {
    /**
     * The inherited status. Clients change it only through `Person`'s own
     * `ChangeStatus`, `Activate`, `Inactivate`, `Block` and `Delete`; calling the
     * base methods on `lifecycle` directly is a path C# virtual dispatch never takes.
     */
    const lifecycle: Statusable
    var uniqueId: Guid
    var name: string
    var picture: Nullable<string>
    var alias: Nullable<string>
    var documents: seq<PersonDocument>
    var jobTitle: Nullable<string>
    var dateOfBirth: Nullable<DateTime>
    var age: Nullable<int32>
    var gender: Gender
    var maritalStatus: MaritalStatus
    var nationality: Nullable<string>
    var naturality: Nullable<string>
    var email: Nullable<string>
    var notes: Nullable<string>
    var enterpriseId: Nullable<int32>

    /** The name is never blank. */
    ghost predicate Valid()
      reads this
    {
      !IsNullOrWhiteSpace(Value(name))
    }

    function Data(): PersonData
      reads this, lifecycle
    {
      PersonData(uniqueId, name, picture, alias, jobTitle, dateOfBirth, age, gender, maritalStatus,
                 nationality, naturality, email, notes, enterpriseId, lifecycle.status)
    }

    predicate IsActive() reads lifecycle { lifecycle.IsActive() }
    predicate IsInactive() reads lifecycle { lifecycle.IsInactive() }
    predicate IsBlocked() reads lifecycle { lifecycle.IsBlocked() }
    predicate IsDeleted() reads lifecycle { lifecycle.IsDeleted() }

    /** Stores every value as given; the name check is the caller's (`Create`, the builder). */
    constructor (uniqueId: Guid, name: string, gender: Gender, status: Status, maritalStatus: MaritalStatus,
                 picture: Nullable<string>, alias: Nullable<string>, jobTitle: Nullable<string>,
                 dateOfBirth: Nullable<DateTime>, age: Nullable<int32>, nationality: Nullable<string>,
                 naturality: Nullable<string>, email: Nullable<string>, notes: Nullable<string>,
                 enterpriseId: Nullable<int32>, documents: seq<PersonDocument>)
      requires !IsNullOrWhiteSpace(Value(name))
      ensures Valid() && fresh(lifecycle)
      ensures Data() == PersonData(uniqueId, name, picture, alias, jobTitle, dateOfBirth, age, gender, maritalStatus,
                                   nationality, naturality, email, notes, enterpriseId, status)
      ensures this.documents == documents
    {
      lifecycle := new Statusable(status);
      this.uniqueId := uniqueId;
      this.name := name;
      this.picture := picture;
      this.alias := alias;
      this.jobTitle := jobTitle;
      this.dateOfBirth := dateOfBirth;
      this.age := age;
      this.gender := gender;
      this.maritalStatus := maritalStatus;
      this.nationality := nationality;
      this.naturality := naturality;
      this.email := email;
      this.notes := notes;
      this.enterpriseId := enterpriseId;
      this.documents := documents;
    }

    /**
     * The public constructor and `Create`: a fresh id, a checked name, every
     * other value as given and no documents. `freshId` is what `Guid.NewGuid()` returned.
     */
    static method Create(freshId: Guid, name: Nullable<string>, picture: Nullable<string>, alias: Nullable<string>,
                         jobTitle: Nullable<string>, dateOfBirth: Nullable<DateTime>, age: Nullable<int32>,
                         nationality: Nullable<string>, naturality: Nullable<string>, email: Nullable<string>,
                         notes: Nullable<string>, enterpriseId: Nullable<int32>, gender: Gender,
                         maritalStatus: MaritalStatus := MaritalStatus.None, status: Status := Status.Active)
      returns (r: Result<Person>)
      requires freshId != EmptyGuid
      ensures r.Failure? <==> IsNullOrWhiteSpace(name)
      ensures r.Failure? ==> r.error == ArgumentNull("name", MustNotBeNullOrEmpty("name"))
      ensures r.Success? ==> fresh(r.value) && fresh(r.value.lifecycle) && r.value.Valid()
      ensures r.Success? ==> r.value.Data() == PersonData(freshId, name.value, picture, alias, jobTitle, dateOfBirth, age,
                                                          gender, maritalStatus, nationality, naturality, email, notes,
                                                          enterpriseId, status)
      ensures r.Success? ==> r.value.documents == []
    {
      var guard := ThrowIfNullOrWhiteSpace(name, "name");
      if guard.Fail? {
        return Failure(guard.error);
      }
      var p := new Person(freshId, name.value, gender, status, maritalStatus, picture, alias, jobTitle, dateOfBirth,
                          age, nationality, naturality, email, notes, enterpriseId, []);
      r := Success(p);
    }

    /** A blank name is rejected and nothing changes; otherwise exactly the name and the alias are set. */
    method RenameIt(name: Nullable<string>, alias: Nullable<string>) returns (r: Outcome)
      requires Valid()
      modifies this
      ensures Valid() && documents == old(documents)
      ensures r.Fail? <==> IsNullOrWhiteSpace(name)
      ensures r.Fail? ==> r.error == ArgumentNull("name", MustNotBeNullOrEmpty("name")) && Data() == old(Data())
      ensures r.Pass? ==> Data() == old(Data()).(name := name.value, alias := alias)
    {
      var guard := ThrowIfNullOrWhiteSpace(name, "name");
      if guard.Fail? {
        return guard;
      }
      this.name := name.value;
      this.alias := alias;
      r := Pass;
    }

    method ChangeGender(gender: Gender)
      requires Valid()
      modifies this
      ensures Valid() && documents == old(documents)
      ensures Data() == old(Data()).(gender := gender)
    {
      this.gender := gender;
    }

    method ChangeMaritalStatus(maritalStatus: MaritalStatus)
      requires Valid()
      modifies this
      ensures Valid() && documents == old(documents)
      ensures Data() == old(Data()).(maritalStatus := maritalStatus)
    {
      this.maritalStatus := maritalStatus;
    }

    method ChangeJobTitle(jobTitle: string)
      requires Valid()
      modifies this
      ensures Valid() && documents == old(documents)
      ensures Data() == old(Data()).(jobTitle := Value(jobTitle))
    {
      this.jobTitle := Value(jobTitle);
    }

    method ChangeDateOfBirth(dateOfBirth: Nullable<DateTime>)
      requires Valid()
      modifies this
      ensures Valid() && documents == old(documents)
      ensures Data() == old(Data()).(dateOfBirth := dateOfBirth)
    {
      this.dateOfBirth := dateOfBirth;
    }

    method ChangePicture(picture: string)
      requires Valid()
      modifies this
      ensures Valid() && documents == old(documents)
      ensures Data() == old(Data()).(picture := Value(picture))
    {
      this.picture := Value(picture);
    }

    method ChangeNote(notes: string)
      requires Valid()
      modifies this
      ensures Valid() && documents == old(documents)
      ensures Data() == old(Data()).(notes := Value(notes))
    {
      this.notes := Value(notes);
    }

    method ChangeEnterprise(enterpriseId: Nullable<int32>)
      requires Valid()
      modifies this
      ensures Valid() && documents == old(documents)
      ensures Data() == old(Data()).(enterpriseId := enterpriseId)
    {
      this.enterpriseId := enterpriseId;
    }

    /**
     * The override: assigns the status through the public setter and never
     * throws, so a deleted person can be reactivated, unlike the base guard.
     */
    method ChangeStatus(status: Status)
      modifies lifecycle
      ensures Data() == old(Data()).(status := status)
      ensures lifecycle.status == UnguardedRun(old(lifecycle.status), [ChangeStatusTo(status)])
    {
      lifecycle.status := status;
    }

    /** The inherited `Activate`, `Inactivate` and `Block` dispatch to the override, so they are unguarded too. */
    method Activate()
      modifies lifecycle
      ensures Data() == old(Data()).(status := Active)
      ensures lifecycle.status == UnguardedRun(old(lifecycle.status), [StatusCall.Activate])
    {
      ChangeStatus(Active);
    }

    method Inactivate()
      modifies lifecycle
      ensures Data() == old(Data()).(status := Inactive)
      ensures lifecycle.status == UnguardedRun(old(lifecycle.status), [StatusCall.Inactivate])
    {
      ChangeStatus(Inactive);
    }

    method Block()
      modifies lifecycle
      ensures Data() == old(Data()).(status := Blocked)
      ensures lifecycle.status == UnguardedRun(old(lifecycle.status), [StatusCall.Block])
    {
      ChangeStatus(Blocked);
    }

    /** Adds the document unless a value-equal one is already there; then it changes nothing. */
    method AddDocument(doc: PersonDocument)
      modifies this`documents
      ensures Data() == old(Data())
      ensures documents == if old(ExistsEqual(documents, doc)) then old(documents) else old(documents) + [doc]
      ensures KeysOf(documents) == AddIfAbsent(old(KeysOf(documents)), doc.Key())
      ensures NoDuplicates(old(KeysOf(documents))) ==> NoDuplicates(KeysOf(documents))
    {
      ghost var keys := KeysOf(documents);
      var found := ExistsEqual(documents, doc);
      ExistsEqualIsKeyMembership(documents, doc);
      if !found {
        documents := documents + [doc];
        assert KeysOf(documents) == keys + [doc.Key()];
      }
      if NoDuplicates(keys) {
        AddIfAbsentKeepsNoDuplicates(keys, doc.Key());
      }
    }

    /**
     * Removes the first document value-equal to the argument, keeping the order
     * of the others; without one it is a silent no-op. On the pairs this is
     * `RemoveFirst`, which keeps a duplicate-free list duplicate-free
     * (`RemoveFirstKeepsNoDuplicates`).
     */
    method RemoveDocument(doc: PersonDocument)
      modifies this`documents
      ensures Data() == old(Data())
      ensures !old(ExistsEqual(documents, doc)) ==> documents == old(documents)
      ensures old(ExistsEqual(documents, doc)) ==>
                var i := IndexOf(old(KeysOf(documents)), doc.Key());
                0 <= i && documents == old(documents[..i] + documents[i + 1..])
      ensures KeysOf(documents) == RemoveFirst(old(KeysOf(documents)), doc.Key())
    {
      ghost var keys := KeysOf(documents);
      var found := ExistsEqual(documents, doc);
      ExistsEqualIsKeyMembership(documents, doc);
      if found {
        var i := IndexOf(KeysOf(documents), doc.Key());
        KeysOfWithout(documents, i);
        documents := documents[..i] + documents[i + 1..];
      }
    }

    /**
     * The soft delete: marks the name and the email (a null email marks the
     * empty text) and sets the status to Delete through the unguarded override.
     * The two stamps are the two reads of the clock.
     */
    method Delete(nameStamp: Timestamp, emailStamp: Timestamp)
      requires Valid()
      modifies this, lifecycle
      ensures Valid() && documents == old(documents)
      ensures Data() == old(Data()).(
                name := DeletedMark(nameStamp, old(name)),
                email := Value(DeletedMark(emailStamp, if old(email).Value? then old(email).value else "")),
                status := Status.Delete)
      ensures IsDeleted()
    {
      name := DeletedMark(nameStamp, name);
      email := Value(DeletedMark(emailStamp, if email.Value? then email.value else ""));
      DeletedMarkIsNotBlank(nameStamp, old(name));
      ChangeStatus(Status.Delete);
    }
  }

  /**
   * Nothing locks a deleted person: `Activate` goes through the unguarded
   * override and `RenameIt` has no status check, so both succeed after `Delete`.
   */
  method DeletedPersonStaysMutable(p: Person, nameStamp: Timestamp, emailStamp: Timestamp, newName: string)
    returns (renamed: Outcome)
    requires p.Valid() && !IsNullOrWhiteSpace(Value(newName))
    modifies p, p.lifecycle
    ensures renamed == Pass
    ensures p.Valid() && p.IsActive() && p.name == newName
  {
    p.Delete(nameStamp, emailStamp);
    assert p.IsDeleted();
    p.Activate();
    renamed := p.RenameIt(Value(newName), p.alias);
  }
}
