/**
 * The petstore's in-memory pet repository
 * (examples/petstore/repository/repository.go): a table from identifier to pet
 * with an auto-increment counter. Locking is not modelled; every operation runs
 * on its own.
 */
module Repository {
  import opened Wrappers
  import opened Model

  /** The message of the error `Update`, `UpdateFormData` and `DeleteByID` return for an absent identifier. */
  const PetNotFound: string := "pet not found"

  // ---------------------------------------------------------------------------
  // Specification of the single-pet updates
  // ---------------------------------------------------------------------------

  /** The pet `Update` stores: a patch of `p` by `req`. */
  function Patched(p: Pet, req: UpdatePetRequest): Pet {
    p.(name := if req.name != "" then req.name else p.name,
       category := req.category,
       photoURLs := if |req.photoURLs| > 0 then req.photoURLs else p.photoURLs,
       tags := req.tags,
       status := if req.status != "" then req.status else p.status)
  }

  /** The pet `UpdateFormData` stores: `p` with the form's name and status. */
  function WithFormData(p: Pet, form: UpdatePetFormData): Pet {
    p.(name := form.name, status := form.status)
  }

  /** Field by field: name, photo URLs and status change only when the request
      carries a non-empty value; category and tags are always replaced; the
      identifier is kept. */
  lemma PatchedFields(p: Pet, req: UpdatePetRequest)
    ensures Patched(p, req).id == p.id
    ensures Patched(p, req).name == (if req.name == "" then p.name else req.name)
    ensures Patched(p, req).category == req.category
    ensures Patched(p, req).photoURLs == (if req.photoURLs == [] then p.photoURLs else req.photoURLs)
    ensures Patched(p, req).tags == req.tags
    ensures Patched(p, req).status == (if req.status == "" then p.status else req.status)
  {
  }

  /** Sending the same patch twice has the effect of sending it once. */
  lemma PatchedIdempotent(p: Pet, req: UpdatePetRequest)
    ensures Patched(Patched(p, req), req) == Patched(p, req)
  {
  }

  /** A patch with no optional values, carrying the pet's own category and tags, changes nothing. */
  lemma EmptyPatchKeepsPet(p: Pet, req: UpdatePetRequest)
    requires req.name == "" && req.photoURLs == [] && req.status == ""
    requires req.category == p.category && req.tags == p.tags
    ensures Patched(p, req) == p
  {
  }

  /** Form data overwrites exactly the name and the status. */
  lemma FormDataFields(p: Pet, form: UpdatePetFormData)
    ensures WithFormData(p, form).name == form.name
    ensures WithFormData(p, form).status == form.status
    ensures WithFormData(p, form).(name := p.name, status := p.status) == p
  {
  }

  /** Of two form-data updates, the later one alone decides the result. */
  lemma FormDataLastWins(p: Pet, first: UpdatePetFormData, second: UpdatePetFormData)
    ensures WithFormData(WithFormData(p, first), second) == WithFormData(p, second)
  {
  }

  // ---------------------------------------------------------------------------
  // Specification of the listing queries
  // ---------------------------------------------------------------------------

  /** Which stored pets a listing query returns. */
  datatype Filter =
    | All                              // FindAll
    | StatusIs(status: string)         // FindAllByStatus
    | TagNamedIn(names: seq<string>)   // FindAllByTags

  /** True iff some tag of `p` has a name listed in `names`. */
  predicate HasTagNamedIn(p: Pet, names: seq<string>) {
    exists i :: 0 <= i < |p.tags| && p.tags[i].name in names
  }

  predicate Keeps(f: Filter, p: Pet) {
    match f
    case All => true
    case StatusIs(s) => p.status == s
    case TagNamedIn(names) => HasTagNamedIn(p, names)
  }

  ghost predicate SortedByID(s: seq<Pet>) {
    forall i, j :: 0 <= i < j < |s| ==> s[i].id <= s[j].id
  }

  ghost predicate StrictlySortedByID(s: seq<Pet>) {
    forall i, j :: 0 <= i < j < |s| ==> s[i].id < s[j].id
  }

  ghost predicate NoDuplicates(s: seq<Pet>) {
    forall i, j :: 0 <= i < j < |s| ==> s[i] != s[j]
  }

  /** `r` lists exactly the pets stored in `data` that `f` keeps, each once,
      in strictly increasing identifier order. */
  ghost predicate IsSortedSelection(r: seq<Pet>, data: map<int, Pet>, f: Filter) {
    && StrictlySortedByID(r)
    && (forall i :: 0 <= i < |r| ==> r[i].id in data && data[r[i].id] == r[i] && Keeps(f, r[i]))
    && (forall k :: k in data && Keeps(f, data[k]) ==> data[k] in r)
  }

  /** What a listing loop has gathered once the keys outside `rest` are visited. */
  ghost predicate GatheredSoFar(acc: seq<Pet>, data: map<int, Pet>, f: Filter, rest: set<int>) {
    && NoDuplicates(acc)
    && (forall i :: 0 <= i < |acc| ==> acc[i].id in data && acc[i].id !in rest && data[acc[i].id] == acc[i] && Keeps(f, acc[i]))
    && (forall k :: k in data && k !in rest && Keeps(f, data[k]) ==> data[k] in acc)
  }

  lemma {:induction false} NoDuplicatesCountOnce(s: seq<Pet>, x: Pet)
    requires NoDuplicates(s)
    ensures multiset(s)[x] <= 1
  {
    if s != [] {
      assert s == [s[0]] + s[1..];
      NoDuplicatesCountOnce(s[1..], x);
      if s[0] == x {
        assert x !in s[1..];
      }
    }
  }

  /** A permutation of a sequence without duplicates has none either. */
  lemma PermutationKeepsNoDuplicates(s: seq<Pet>, t: seq<Pet>)
    requires multiset(s) == multiset(t) && NoDuplicates(s)
    ensures NoDuplicates(t)
  {
    forall i, j | 0 <= i < j < |t| ensures t[i] != t[j] {
      if t[i] == t[j] {
        var x := t[i];
        assert t == t[..j] + [t[j]] + t[j + 1..];
        assert x in t[..j];
        assert multiset(t)[x] >= 2;
        NoDuplicatesCountOnce(s, x);
        assert false;
      }
    }
  }

  lemma SameElementsBothEmpty(r1: seq<Pet>, r2: seq<Pet>)
    requires forall p :: p in r1 <==> p in r2
    ensures r1 == [] <==> r2 == []
  {
    if r1 != [] {
      assert r1[0] in r2;
    }
    if r2 != [] {
      assert r2[0] in r1;
    }
  }

  /** Two listings strictly sorted by identifier that hold the same pets are the same listing. */
  lemma {:induction false} StrictlySortedSameElementsEqual(r1: seq<Pet>, r2: seq<Pet>)
    requires StrictlySortedByID(r1) && StrictlySortedByID(r2)
    requires forall p :: p in r1 <==> p in r2
    ensures r1 == r2
  {
    SameElementsBothEmpty(r1, r2);
    if r1 != [] {
      assert r2[0] in r1 && r1[0] in r2;
      var i :| 0 <= i < |r1| && r1[i] == r2[0];
      var j :| 0 <= j < |r2| && r2[j] == r1[0];
      assert r1[0].id <= r1[i].id;
      assert r2[0].id <= r2[j].id;
      assert j == 0;
      forall p ensures p in r1[1..] <==> p in r2[1..] {
        if p in r1[1..] {
          assert p in r1 && p.id > r1[0].id;
        }
        if p in r2[1..] {
          assert p in r2 && p.id > r2[0].id;
        }
      }
      StrictlySortedSameElementsEqual(r1[1..], r2[1..]);
      assert r1 == [r1[0]] + r1[1..];
      assert r2 == [r2[0]] + r2[1..];
    }
  }

  /** A listing query has one possible answer: the order in which the table is
      visited does not show in the result. */
  lemma SelectionUnique(r1: seq<Pet>, r2: seq<Pet>, data: map<int, Pet>, f: Filter)
    requires IsSortedSelection(r1, data, f) && IsSortedSelection(r2, data, f)
    ensures r1 == r2
  {
    forall p | p in r1 ensures p in r2 {
      var i :| 0 <= i < |r1| && r1[i] == p;
    }
    forall p | p in r2 ensures p in r1 {
      var i :| 0 <= i < |r2| && r2[i] == p;
    }
    StrictlySortedSameElementsEqual(r1, r2);
  }

  /** The pets of `s` that `f` keeps, in the order of `s`. */
  function Select(s: seq<Pet>, f: Filter): seq<Pet> {
    if s == [] then []
    else if Keeps(f, s[0]) then [s[0]] + Select(s[1..], f)
    else Select(s[1..], f)
  }

  lemma {:induction false} SelectMembers(s: seq<Pet>, f: Filter, p: Pet)
    ensures p in Select(s, f) <==> p in s && Keeps(f, p)
  {
    if s != [] {
      SelectMembers(s[1..], f, p);
      assert s == [s[0]] + s[1..];
    }
  }

  lemma {:induction false} SelectKeepsOrder(s: seq<Pet>, f: Filter)
    requires StrictlySortedByID(s)
    ensures StrictlySortedByID(Select(s, f))
  {
    if s != [] {
      SelectKeepsOrder(s[1..], f);
      if Keeps(f, s[0]) {
        forall p | p in Select(s[1..], f) ensures s[0].id < p.id {
          SelectMembers(s[1..], f, p);
        }
      }
    }
  }

  /** Each filtered query lists what the full listing lists, less the pets the
      filter drops: FindAllByStatus and FindAllByTags agree with FindAll. */
  lemma FilteredSelectionOfAll(all: seq<Pet>, data: map<int, Pet>, f: Filter)
    requires IsSortedSelection(all, data, All)
    ensures IsSortedSelection(Select(all, f), data, f)
  {
    var r := Select(all, f);
    SelectKeepsOrder(all, f);
    forall i | 0 <= i < |r| ensures r[i].id in data && data[r[i].id] == r[i] && Keeps(f, r[i]) {
      SelectMembers(all, f, r[i]);
    }
    forall k | k in data && Keeps(f, data[k]) ensures data[k] in r {
      SelectMembers(all, f, data[k]);
    }
  }

  /** In a valid table, an identifier is stored exactly when the full listing shows a pet with it. */
  lemma StoredIffListed(all: seq<Pet>, data: map<int, Pet>, id: int)
    requires IsSortedSelection(all, data, All)
    requires forall k :: k in data ==> data[k].id == k
    ensures id in data <==> exists i :: 0 <= i < |all| && all[i].id == id
  {
  }

  /** Sorting what a completed listing loop gathered gives the selection. */
  lemma SortedGatheredIsSelection(acc: seq<Pet>, r: seq<Pet>, data: map<int, Pet>, f: Filter)
    requires GatheredSoFar(acc, data, f, {})
    requires multiset(r) == multiset(acc) && SortedByID(r)
    ensures IsSortedSelection(r, data, f)
  {
    forall p ensures p in r <==> p in acc {
      assert p in r <==> p in multiset(r);
      assert p in acc <==> p in multiset(acc);
    }
    forall i | 0 <= i < |r| ensures r[i].id in data && data[r[i].id] == r[i] && Keeps(f, r[i]) {
      assert r[i] in r;
      var j :| 0 <= j < |acc| && acc[j] == r[i];
    }
    PermutationKeepsNoDuplicates(acc, r);
  }

  /** A non-empty set of keys has a key to visit next. */
  lemma KeyToVisit(rest: set<int>)
    requires rest != {}
    ensures exists k :: k in rest
  {
    if forall k :: k !in rest {
      assert false;
    }
  }

  /** The order `sort.Slice` leaves with the comparison `pets[i].ID < pets[j].ID`:
      a permutation sorted by identifier. */
  method SortByID(a: array<Pet>)
    modifies a
    ensures SortedByID(a[..])
    ensures multiset(a[..]) == multiset(old(a[..]))
  {
    var i := 0;
    while i < a.Length
      invariant 0 <= i <= a.Length
      invariant SortedByID(a[..i])
      invariant multiset(a[..]) == multiset(old(a[..]))
    {
      InsertLast(a, i);
      i := i + 1;
    }
    assert a[..a.Length] == a[..];
  }

  /** Moves `a[i]` down into the sorted prefix `a[..i]`. */
  method InsertLast(a: array<Pet>, i: nat)
    requires i < a.Length
    requires SortedByID(a[..i])
    modifies a
    ensures SortedByID(a[..i + 1])
    ensures multiset(a[..]) == multiset(old(a[..]))
  {
    var j := i;
    while j > 0 && a[j - 1].id > a[j].id
      invariant 0 <= j <= i
      invariant forall x, y :: 0 <= x < y <= i && x != j && y != j ==> a[x].id <= a[y].id
      invariant forall y :: j < y <= i ==> a[j].id <= a[y].id
      invariant multiset(a[..]) == multiset(old(a[..]))
    {
      Swap(a, j - 1, j);
      j := j - 1;
    }
  }

  method Swap(a: array<Pet>, x: nat, y: nat)
    requires x < y < a.Length
    modifies a
    ensures a[..] == old(a[..])[x := old(a[y])][y := old(a[x])]
    ensures multiset(a[..]) == multiset(old(a[..]))
  {
    a[x], a[y] := a[y], a[x];
  }

  /** Copies a gathered slice into an array and sorts it by identifier. */
  method SortedByIDCopy(s: seq<Pet>) returns (r: seq<Pet>)
    ensures SortedByID(r)
    ensures multiset(r) == multiset(s)
  {
    var a := new Pet[|s|](i requires 0 <= i < |s| => s[i]);
    assert a[..] == s;
    SortByID(a);
    r := a[..];
  }

  // ---------------------------------------------------------------------------
  // The repository
  // ---------------------------------------------------------------------------

  class PetRepository {
    var data: map<int, Pet>
    var nextID: int

    /** Every stored key lies in [1, nextID) and is the identifier of the pet stored under it. */
    ghost predicate Valid()
      reads this
    {
      && 1 <= nextID
      && forall k :: k in data ==> 1 <= k < nextID && data[k].id == k
    }

    /** NewDummyPetRepository: an empty table whose first identifier is 1. */
    constructor ()
      ensures Valid()
      ensures data == map[] && nextID == 1
    {
      data := map[];
      nextID := 1;
    }

    /** Stores the request as a new pet under the next identifier; never fails. */
    method Create(req: CreatePetRequest) returns (pet: Pet, err: Option<string>)
      requires Valid()
      modifies this
      ensures Valid()
      ensures err == None
      ensures pet.id == old(nextID) && pet.name == req.name && pet.category == req.category
      ensures pet.photoURLs == req.photoURLs && pet.tags == req.tags && pet.status == req.status
      ensures forall k :: k in old(data) ==> k < pet.id
      ensures data == old(data)[pet.id := pet]
      ensures nextID == old(nextID) + 1
    {
      pet := Pet(nextID, req.name, req.category, req.photoURLs, req.tags, req.status);
      data := data[nextID := pet];
      nextID := nextID + 1;
      err := None;
    }

    /** Patches the stored pet with the request's identifier. */
    method Update(req: UpdatePetRequest) returns (pet: Pet, err: Option<string>)
      requires Valid()
      modifies this
      ensures Valid()
      ensures nextID == old(nextID)
      ensures req.id !in old(data) ==> err == Some(PetNotFound) && pet == ZeroPet() && data == old(data)
      ensures req.id in old(data) ==>
                && err == None
                && pet == Patched(old(data)[req.id], req)
                && data == old(data)[req.id := pet]
    {
      if req.id !in data {
        return ZeroPet(), Some(PetNotFound);
      }
      pet := data[req.id];
      if req.name != "" {
        pet := pet.(name := req.name);
      }
      pet := pet.(category := req.category);
      if |req.photoURLs| > 0 {
        pet := pet.(photoURLs := req.photoURLs);
      }
      pet := pet.(tags := req.tags);
      if req.status != "" {
        pet := pet.(status := req.status);
      }
      data := data[req.id := pet];
      err := None;
    }

    /** Overwrites the name and status of the stored pet with the form's identifier. */
    method UpdateFormData(req: UpdatePetFormData) returns (pet: Pet, err: Option<string>)
      requires Valid()
      modifies this
      ensures Valid()
      ensures nextID == old(nextID)
      ensures req.id !in old(data) ==> err == Some(PetNotFound) && pet == ZeroPet() && data == old(data)
      ensures req.id in old(data) ==>
                && err == None
                && pet == WithFormData(old(data)[req.id], req)
                && data == old(data)[req.id := pet]
    {
      if req.id !in data {
        return ZeroPet(), Some(PetNotFound);
      }
      pet := data[req.id];
      pet := pet.(name := req.name);
      pet := pet.(status := req.status);
      data := data[req.id := pet];
      err := None;
    }

    /** Looks a pet up; Go's zero pet and `false` when it is absent. */
    method FindByID(id: int) returns (pet: Pet, ok: bool)
      ensures ok <==> id in data
      ensures ok ==> pet == data[id]
      ensures !ok ==> pet == ZeroPet()
    {
      ok := id in data;
      pet := if ok then data[id] else ZeroPet();
    }

    /** Every stored pet, once each, by increasing identifier. */
    method FindAll() returns (pets: seq<Pet>)
      requires Valid()
      ensures IsSortedSelection(pets, data, All)
    {
      var acc: seq<Pet> := [];
      var rest := data.Keys;
      while rest != {}
        invariant rest <= data.Keys
        invariant GatheredSoFar(acc, data, All, rest)
        decreases rest
      {
        KeyToVisit(rest);
        var k :| k in rest;
        acc := acc + [data[k]];
        rest := rest - {k};
      }
      pets := SortedByIDCopy(acc);
      SortedGatheredIsSelection(acc, pets, data, All);
    }

    /** The stored pets whose status equals `status`, by increasing identifier. */
    method FindAllByStatus(status: string) returns (pets: seq<Pet>)
      requires Valid()
      ensures IsSortedSelection(pets, data, StatusIs(status))
    {
      var acc: seq<Pet> := [];
      var rest := data.Keys;
      while rest != {}
        invariant rest <= data.Keys
        invariant GatheredSoFar(acc, data, StatusIs(status), rest)
        decreases rest
      {
        KeyToVisit(rest);
        var k :| k in rest;
        var pet := data[k];
        if pet.status == status {
          acc := acc + [pet];
        }
        rest := rest - {k};
      }
      pets := SortedByIDCopy(acc);
      SortedGatheredIsSelection(acc, pets, data, StatusIs(status));
    }

    /** The stored pets with at least one tag named in `tags`, each once, by increasing identifier. */
    method FindAllByTags(tags: seq<string>) returns (pets: seq<Pet>)
      requires Valid()
      ensures IsSortedSelection(pets, data, TagNamedIn(tags))
    {
      var acc: seq<Pet> := [];
      var rest := data.Keys;
      while rest != {}
        invariant rest <= data.Keys
        invariant GatheredSoFar(acc, data, TagNamedIn(tags), rest)
        decreases rest
      {
        KeyToVisit(rest);
        var k :| k in rest;
        var pet := data[k];
        ghost var before := acc;
        var t := 0;
        while t < |pet.tags|
          invariant 0 <= t <= |pet.tags|
          invariant acc == before
          invariant forall u :: 0 <= u < t ==> pet.tags[u].name !in tags
        {
          if pet.tags[t].name in tags {
            acc := acc + [pet];
            break;
          }
          t := t + 1;
        }
        rest := rest - {k};
      }
      pets := SortedByIDCopy(acc);
      SortedGatheredIsSelection(acc, pets, data, TagNamedIn(tags));
    }

    /** Removes the pet stored under `id`; the counter stays where it is. */
    method DeleteByID(id: int) returns (err: Option<string>)
      requires Valid()
      modifies this
      ensures Valid()
      ensures nextID == old(nextID)
      ensures id !in old(data) ==> err == Some(PetNotFound) && data == old(data)
      ensures id in old(data) ==> err == None && data == old(data) - {id}
      ensures id in old(data) ==> id < nextID
    {
      if id !in data {
        return Some(PetNotFound);
      }
      data := data - {id};
      err := None;
    }
  }

  /** A successful delete followed by a create: the new pet does not take the deleted identifier. */
  method DeleteThenCreate(repo: PetRepository, id: int, req: CreatePetRequest)
    returns (deleted: Option<string>, pet: Pet, createErr: Option<string>)
    requires repo.Valid()
    modifies repo
    ensures repo.Valid()
    ensures deleted == None <==> id in old(repo.data)
    ensures createErr == None
    ensures deleted == None ==> pet.id != id && id !in repo.data
  {
    deleted := repo.DeleteByID(id);
    pet, createErr := repo.Create(req);
  }
}
