/**
 * The two backends the mode-2 dual writer routes to, reduced to what the
 * dual writer can observe: an in-memory table of resource objects whose
 * operations can be told to fail, and one journal shared by both backends
 * that records every call in the order it was made.
 */
module ObjectStore {
  import opened Wrappers

  /** Metadata and payload of a resource object. A nil Go map is `None`. */
  datatype Obj = Obj(
    name: string,
    resourceVersion: string,
    uid: string,
    labels: Option<map<string, string>>,
    annotations: Option<map<string, string>>,
    content: string)

  /** A `runtime.Object`: nil, a single object, or a list of objects. */
  datatype RObj = Nil | Single(obj: Obj) | Items(items: seq<Obj>)

  /**
   * Errors a backend or the metadata accessors can produce. Only NotFound is
   * treated specially by the dual writer; NotAnObject stands for a failing
   * `meta.Accessor`, NotAList for a failing `meta.ExtractList`.
   */
  datatype ApiError = NotFound | AlreadyExists | Other(reason: string) | NotAnObject | NotAList

  datatype Backend = Legacy | Unified

  datatype Op = OpCreate | OpGet | OpList | OpDelete | OpDeleteCollection | OpUpdate

  datatype Request =
    | CreateReq(obj: Obj)
    | GetReq(name: string)
    | ListReq
    | DeleteReq(name: string)
    | DeleteCollectionReq
    | UpdateReq(name: string, obj: Obj, forceAllowCreate: bool)
    | DestroyReq

  datatype Call = Call(backend: Backend, req: Request)

  /** What a backend call returns: an object, a flag (async for Delete, created for Update) and an error. */
  datatype Reply = Reply(obj: RObj, flag: bool, err: Option<ApiError>)

  datatype Table = Table(columns: seq<string>, rows: seq<string>)

  // ---------------------------------------------------------------------------
  // Table semantics of one backend

  function Find(objects: seq<Obj>, name: string): (r: Option<Obj>)
    ensures r.Some? ==> r.value in objects && r.value.name == name
    ensures r.None? ==> forall o :: o in objects ==> o.name != name
  {
    if objects == [] then None
    else if objects[0].name == name then Some(objects[0])
    else Find(objects[1..], name)
  }

  function Without(objects: seq<Obj>, name: string): (r: seq<Obj>)
    ensures forall o :: o in r <==> o in objects && o.name != name
  {
    if objects == [] then []
    else (if objects[0].name == name then [] else [objects[0]]) + Without(objects[1..], name)
  }

  function ReplaceNamed(objects: seq<Obj>, name: string, o: Obj): (r: seq<Obj>)
    ensures |r| == |objects|
  {
    if objects == [] then []
    else [if objects[0].name == name then o else objects[0]] + ReplaceNamed(objects[1..], name, o)
  }

  function Failed(err: ApiError): Reply {
    Reply(Nil, false, Some(err))
  }

  function CreateReply(objects: seq<Obj>, faults: map<Op, ApiError>, o: Obj): Reply {
    if OpCreate in faults then Failed(faults[OpCreate])
    else if Find(objects, o.name).Some? then Failed(AlreadyExists)
    else Reply(Single(o), false, None)
  }

  function GetReply(objects: seq<Obj>, faults: map<Op, ApiError>, name: string): Reply {
    if OpGet in faults then Failed(faults[OpGet])
    else match Find(objects, name)
      case None => Failed(NotFound)
      case Some(o) => Reply(Single(o), false, None)
  }

  function ListReply(objects: seq<Obj>, faults: map<Op, ApiError>): Reply {
    if OpList in faults then Failed(faults[OpList]) else Reply(Items(objects), false, None)
  }

  function DeleteReply(objects: seq<Obj>, faults: map<Op, ApiError>, asyncDelete: bool, name: string): Reply {
    if OpDelete in faults then Failed(faults[OpDelete])
    else match Find(objects, name)
      case None => Failed(NotFound)
      case Some(o) => Reply(Single(o), asyncDelete, None)
  }

  function DeleteCollectionReply(objects: seq<Obj>, faults: map<Op, ApiError>): Reply {
    if OpDeleteCollection in faults then Failed(faults[OpDeleteCollection]) else Reply(Items(objects), false, None)
  }

  function UpdateReply(objects: seq<Obj>, faults: map<Op, ApiError>, name: string, o: Obj, force: bool): Reply {
    if OpUpdate in faults then Failed(faults[OpUpdate])
    else if Find(objects, name).Some? then Reply(Single(o), false, None)
    else if force then Reply(Single(o), true, None)
    else Failed(NotFound)
  }

  function UpdateEffect(objects: seq<Obj>, faults: map<Op, ApiError>, name: string, o: Obj, force: bool): seq<Obj> {
    if OpUpdate in faults then objects
    else if Find(objects, name).Some? then ReplaceNamed(objects, name, o)
    else if force then objects + [o]
    else objects
  }

  /** The call log shared by both backends. */
  class Journal {
    var calls: seq<Call>

    constructor ()
      ensures calls == []
    {
      calls := [];
    }
  }

  /**
   * One backend. `faults` names the operations that are told to fail and
   * with which error; the dual writer never changes it.
   */
  class Store {
    const backend: Backend
    const journal: Journal
    const singularName: string
    const namespaceScoped: bool
    const columns: seq<string>
    var objects: seq<Obj>
    var faults: map<Op, ApiError>
    var asyncDelete: bool
    var destroyed: bool

    constructor (backend: Backend, journal: Journal, singularName: string, namespaceScoped: bool, columns: seq<string>)
      ensures this.backend == backend && this.journal == journal
      ensures this.singularName == singularName && this.namespaceScoped == namespaceScoped && this.columns == columns
      ensures objects == [] && faults == map[] && !asyncDelete && !destroyed
    {
      this.backend := backend;
      this.journal := journal;
      this.singularName := singularName;
      this.namespaceScoped := namespaceScoped;
      this.columns := columns;
      objects := [];
      faults := map[];
      asyncDelete := false;
      destroyed := false;
    }

    method Create(o: Obj) returns (r: Reply)
      modifies this`objects, journal`calls
      ensures r == CreateReply(old(objects), faults, o)
      ensures objects == if r.err.None? then old(objects) + [o] else old(objects)
      ensures journal.calls == old(journal.calls) + [Call(backend, CreateReq(o))]
    {
      r := CreateReply(objects, faults, o);
      if r.err.None? {
        objects := objects + [o];
      }
      journal.calls := journal.calls + [Call(backend, CreateReq(o))];
    }

    method Get(name: string) returns (r: Reply)
      modifies journal`calls
      ensures r == GetReply(objects, faults, name)
      ensures journal.calls == old(journal.calls) + [Call(backend, GetReq(name))]
    {
      r := GetReply(objects, faults, name);
      journal.calls := journal.calls + [Call(backend, GetReq(name))];
    }

    method List() returns (r: Reply)
      modifies journal`calls
      ensures r == ListReply(objects, faults)
      ensures journal.calls == old(journal.calls) + [Call(backend, ListReq)]
    {
      r := ListReply(objects, faults);
      journal.calls := journal.calls + [Call(backend, ListReq)];
    }

    method Delete(name: string) returns (r: Reply)
      modifies this`objects, journal`calls
      ensures r == DeleteReply(old(objects), faults, asyncDelete, name)
      ensures objects == if r.err.None? then Without(old(objects), name) else old(objects)
      ensures journal.calls == old(journal.calls) + [Call(backend, DeleteReq(name))]
    {
      r := DeleteReply(objects, faults, asyncDelete, name);
      if r.err.None? {
        objects := Without(objects, name);
      }
      journal.calls := journal.calls + [Call(backend, DeleteReq(name))];
    }

    method DeleteCollection() returns (r: Reply)
      modifies this`objects, journal`calls
      ensures r == DeleteCollectionReply(old(objects), faults)
      ensures objects == if r.err.None? then [] else old(objects)
      ensures journal.calls == old(journal.calls) + [Call(backend, DeleteCollectionReq)]
    {
      r := DeleteCollectionReply(objects, faults);
      if r.err.None? {
        objects := [];
      }
      journal.calls := journal.calls + [Call(backend, DeleteCollectionReq)];
    }

    method Update(name: string, o: Obj, force: bool) returns (r: Reply)
      modifies this`objects, journal`calls
      ensures r == UpdateReply(old(objects), faults, name, o, force)
      ensures objects == UpdateEffect(old(objects), faults, name, o, force)
      ensures journal.calls == old(journal.calls) + [Call(backend, UpdateReq(name, o, force))]
    {
      r := UpdateReply(objects, faults, name, o, force);
      objects := UpdateEffect(objects, faults, name, o, force);
      journal.calls := journal.calls + [Call(backend, UpdateReq(name, o, force))];
    }

    method Destroy()
      modifies this`destroyed, journal`calls
      ensures destroyed
      ensures journal.calls == old(journal.calls) + [Call(backend, DestroyReq)]
    {
      destroyed := true;
      journal.calls := journal.calls + [Call(backend, DestroyReq)];
    }

    /** An empty object of the backend's kind. */
    function New(): Obj {
      Obj("", "", "", None, None, "")
    }

    function NewList(): RObj {
      Items([])
    }

    function ConvertToTable(o: RObj): Result<Table, ApiError> {
      match o
      case Nil => Err(NotAnObject)
      case Single(x) => Ok(Table(columns, [x.name]))
      case Items(xs) => Ok(Table(columns, seq(|xs|, i requires 0 <= i < |xs| => xs[i].name)))
    }
  }
}
