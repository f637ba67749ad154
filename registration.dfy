/** The process-wide catalogue of backend kinds (backends/registration.go). */
module Registration {
  import opened Common

  /** A backend kind's registration record (backends/structs.go). Its constructor `New`
      is foreign code: what it does for one login attempt is supplied to the session
      store as an outcome, see `Sessions.Attempt`. */
  datatype Descriptor = Descriptor(id: string, displayName: string)

  /** How `Register` ends: normally, or by panicking on a duplicate id. */
  datatype RegisterResult = Registered | DuplicatePanic(id: string)

  /** No two descriptors share an id. */
  ghost predicate UniqueIds(ds: seq<Descriptor>) {
    forall i, j :: 0 <= i < j < |ds| ==> ds[i].id != ds[j].id
  }

  /** The first descriptor of `ds` whose id is `id`, if any. */
  function Find(ds: seq<Descriptor>, id: string): (r: Option<Descriptor>)
    ensures r.Some? ==> r.value in ds && r.value.id == id
    ensures r.Some? ==> exists i :: 0 <= i < |ds| && ds[i] == r.value && forall j :: 0 <= j < i ==> ds[j].id != id
    ensures r.None? <==> forall i :: 0 <= i < |ds| ==> ds[i].id != id
  {
    if ds == [] then None
    else if ds[0].id == id then Some(ds[0])
    else
      var r := Find(ds[1..], id);
      assert forall i :: 1 <= i < |ds| ==> ds[i] == ds[1..][i - 1];
      if r.Some? then
        var i :| 0 <= i < |ds[1..]| && ds[1..][i] == r.value && forall j :: 0 <= j < i ==> ds[1..][j].id != id;
        assert ds[i + 1] == r.value && forall j :: 0 <= j < i + 1 ==> ds[j].id != id;
        r
      else r
  }

  /** With unique ids, lookup by id finds exactly the registered descriptor. */
  lemma FindRegistered(ds: seq<Descriptor>, d: Descriptor)
    requires UniqueIds(ds)
    requires d in ds
    ensures Find(ds, d.id) == Some(d)
  {
  }

  /** The registry: an append-only sequence of descriptors, in registration order. */
  class Registry {
    var descriptors: seq<Descriptor>

    ghost predicate Valid()
      reads this
    {
      UniqueIds(descriptors)
    }

    constructor ()
      ensures Valid() && descriptors == []
    {
      descriptors := [];
    }

    /** Appends `d`, or panics (leaving the registry as it was) when its id is taken. */
    method Register(d: Descriptor) returns (r: RegisterResult)
      requires Valid()
      modifies this
      ensures Valid()
      ensures r == Registered <==> forall i :: 0 <= i < |old(descriptors)| ==> old(descriptors)[i].id != d.id
      ensures r == Registered ==> descriptors == old(descriptors) + [d]
      ensures r != Registered ==> r == DuplicatePanic(d.id) && descriptors == old(descriptors)
    {
      var existing := UnsyncedGetByID(d.id);
      if existing.Some? {
        return DuplicatePanic(d.id);
      }
      descriptors := descriptors + [d];
      r := Registered;
    }

    /** Linear search for the first descriptor with the given id. */
    method UnsyncedGetByID(id: string) returns (found: Option<Descriptor>)
      ensures found == Find(descriptors, id)
      ensures found.Some? <==> exists i :: 0 <= i < |descriptors| && descriptors[i].id == id
    {
      var i := 0;
      while i < |descriptors|
        invariant 0 <= i <= |descriptors|
        invariant forall j :: 0 <= j < i ==> descriptors[j].id != id
        invariant Find(descriptors, id) == Find(descriptors[i..], id)
      {
        if descriptors[i].id == id {
          return Some(descriptors[i]);
        }
        assert descriptors[i..][1..] == descriptors[i + 1..];
        i := i + 1;
      }
      return None;
    }

    /** The descriptor registered under `id`, or none. */
    method GetByID(id: string) returns (found: Option<Descriptor>)
      requires Valid()
      ensures found.None? <==> forall i :: 0 <= i < |descriptors| ==> descriptors[i].id != id
      ensures found.Some? ==> found.value in descriptors && found.value.id == id
      ensures forall d :: d in descriptors && d.id == id ==> found == Some(d)
    {
      found := UnsyncedGetByID(id);
      forall d | d in descriptors && d.id == id ensures found == Some(d) {
        FindRegistered(descriptors, d);
      }
    }

    /** A snapshot of every descriptor in registration order. The result is a value:
        later registrations cannot alter it. */
    method GetAll() returns (snapshot: seq<Descriptor>)
      ensures |snapshot| == |descriptors|
      ensures forall i :: 0 <= i < |snapshot| ==> snapshot[i] == descriptors[i]
    {
      snapshot := descriptors;
    }
  }
}
