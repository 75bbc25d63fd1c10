/**
 * Mode 2 of the dual writer: every write goes to the legacy store first and
 * then to unified storage; reads prefer storage and fall back to legacy on
 * NotFound; list results keep the legacy list's shape with storage objects
 * substituted by name. Each backend call is followed by a duration event
 * (failed or not) and each comparison by an outcome event; the outcome
 * event carries the two objects the code hands to `Compare`.
 */
module DualWriter {
  import opened Wrappers
  import opened ObjectStore

  /** The mode label attached to every metric of this writer. */
  const Mode2Str: string := "2"

  datatype Event =
    | Duration(backend: Backend, failed: bool, verb: string)
    | Outcome(name: string, verb: string, storageSide: RObj, legacySide: RObj)

  /** `getName`: the name of a single object, empty for nil and for lists. */
  function NameOf(o: RObj): string {
    if o.Single? then o.obj.name else ""
  }

  // ---------------------------------------------------------------------------
  // enrichLegacyObject

  function MapOf(m: Option<map<string, string>>): map<string, string> {
    if m.Some? then m.value else map[]
  }

  /** Source annotations win, other target annotations are kept. */
  ghost predicate AnnotationsMerged(m: map<string, string>, target: Option<map<string, string>>, source: Option<map<string, string>>) {
    && (forall k :: k in m <==> k in MapOf(source) || k in MapOf(target))
    && (forall k :: k in MapOf(source) ==> m[k] == MapOf(source)[k])
    && (forall k :: k in MapOf(target) && k !in MapOf(source) ==> m[k] == MapOf(target)[k])
  }

  /**
   * enrichLegacyObject(source, target): the target object with the source's
   * labels (replacing its own, nil included), the source's annotations merged
   * over its own (a nil map becomes empty), and the source's resourceVersion
   * and UID. Fails when either side has no object metadata.
   */
  function Enrich(source: RObj, target: RObj): (r: Result<Obj, ApiError>)
    ensures r.Ok? <==> source.Single? && target.Single?
    ensures r.Err? ==> r.error == NotAnObject
    ensures r.Ok? ==> r.value.name == target.obj.name && r.value.content == target.obj.content
    ensures r.Ok? ==> r.value.labels == source.obj.labels
    ensures r.Ok? ==> r.value.resourceVersion == source.obj.resourceVersion && r.value.uid == source.obj.uid
    ensures r.Ok? ==> r.value.annotations.Some?
    ensures r.Ok? ==> AnnotationsMerged(r.value.annotations.value, target.obj.annotations, source.obj.annotations)
  {
    if !target.Single? || !source.Single? then Err(NotAnObject)
    else
      var t, s := target.obj, source.obj;
      Ok(t.(labels := s.labels,
            annotations := Some(MapOf(t.annotations) + MapOf(s.annotations)),
            resourceVersion := s.resourceVersion,
            uid := s.uid))
  }

  /** Enriching an already enriched object from the same source changes nothing. */
  lemma EnrichIdempotent(source: Obj, target: Obj)
    ensures Enrich(Single(source), Single(Enrich(Single(source), Single(target)).value)) == Enrich(Single(source), Single(target))
  {
    var once := Enrich(Single(source), Single(target)).value;
    var twice := Enrich(Single(source), Single(once)).value;
    var m1 := once.annotations.value;
    var m2 := twice.annotations.value;
    assert m2 == m1 + MapOf(source.annotations);
    assert m2 == m1;
  }

  // ---------------------------------------------------------------------------
  // parseList

  function Names(items: seq<Obj>): set<string> {
    set i | 0 <= i < |items| :: items[i].name
  }

  /** `index` maps every name of `items` to the LAST position holding that name. */
  ghost predicate IsNameIndex(items: seq<Obj>, index: map<string, nat>) {
    && index.Keys == Names(items)
    && (forall n :: n in index ==> index[n] < |items| && items[index[n]].name == n)
    && (forall n, j :: n in index && index[n] < j < |items| ==> items[j].name != n)
  }

  lemma NamesSnoc(prefix: seq<Obj>, o: Obj)
    ensures Names(prefix + [o]) == Names(prefix) + {o.name}
  {
    var all := prefix + [o];
    forall n | n in Names(all) ensures n in Names(prefix) + {o.name} {
      var j :| 0 <= j < |all| && all[j].name == n;
      if j < |prefix| {
        assert all[j] == prefix[j];
      }
    }
    forall n | n in Names(prefix) ensures n in Names(all) {
      var j :| 0 <= j < |prefix| && prefix[j].name == n;
      assert all[j] == prefix[j];
    }
    assert all[|prefix|] == o;
  }

  /** One step of parseList: recording item `i` under its name extends the index to `items[..i + 1]`. */
  lemma NameIndexStep(items: seq<Obj>, i: nat, index: map<string, nat>)
    requires i < |items| && IsNameIndex(items[..i], index)
    ensures IsNameIndex(items[..i + 1], index[items[i].name := i])
  {
    var before, o := items[..i], items[i];
    var prefix, next := items[..i + 1], index[o.name := i];
    assert prefix == before + [o];
    NamesSnoc(before, o);
    forall n | n in next ensures next[n] < |prefix| && prefix[next[n]].name == n {
      if n != o.name {
        assert prefix[index[n]] == before[index[n]];
      }
    }
    forall n, j | n in next && next[n] < j < |prefix| ensures prefix[j].name != n {
      if n != o.name && j < i {
        assert prefix[j] == before[j];
      }
    }
  }

  /** parseList: the name of every list item mapped to its index; for duplicate names the last index wins. */
  method ParseList(items: seq<Obj>) returns (index: map<string, nat>)
    ensures IsNameIndex(items, index)
  {
    index := map[];
    var i := 0;
    while i < |items|
      invariant 0 <= i <= |items|
      invariant IsNameIndex(items[..i], index)
    {
      NameIndexStep(items, i, index);
      index := index[items[i].name := i];
      i := i + 1;
    }
    assert items[..i] == items;
  }

  // ---------------------------------------------------------------------------
  // The substitution loop of List

  /** The last object of `objs` called `name`. */
  function LastNamed(objs: seq<Obj>, name: string): (r: Option<Obj>)
    ensures r.Some? ==> r.value in objs && r.value.name == name
    ensures r.None? <==> name !in Names(objs)
    decreases |objs|
  {
    if objs == [] then None
    else if objs[|objs| - 1].name == name then Some(objs[|objs| - 1])
    else
      assert Names(objs) == Names(objs[..|objs| - 1]) + {objs[|objs| - 1].name};
      LastNamed(objs[..|objs| - 1], name)
  }

  ghost predicate IsLastOfName(items: seq<Obj>, i: int)
    requires 0 <= i < |items|
  {
    forall j :: i < j < |items| ==> items[j].name != items[i].name
  }

  /**
   * What slot `i` of the returned list holds: the last storage object with
   * the slot's name, if the slot is the last legacy slot with that name;
   * otherwise the legacy object.
   */
  ghost function Slot(legacy: seq<Obj>, storage: seq<Obj>, i: int): (r: Obj)
    requires 0 <= i < |legacy|
    ensures r.name == legacy[i].name
    ensures r == legacy[i] || r in storage
    ensures legacy[i].name !in Names(storage) ==> r == legacy[i]
  {
    if IsLastOfName(legacy, i) && LastNamed(storage, legacy[i].name).Some?
    then LastNamed(storage, legacy[i].name).value
    else legacy[i]
  }

  /**
   * The outcome events the loop records: one per storage object whose name is
   * in the legacy list, in storage order. As written, the slot has already
   * been overwritten when `Compare` runs, so both sides are the storage object.
   */
  function ListOutcomes(storage: seq<Obj>, legacyNames: set<string>): (r: seq<Event>)
    decreases |storage|
  {
    if storage == [] then []
    else
      var o := storage[|storage| - 1];
      ListOutcomes(storage[..|storage| - 1], legacyNames)
        + (if o.name in legacyNames then [Outcome(o.name, "list", Single(o), Single(o))] else [])
  }

  /** Every list outcome is for a legacy name, and its two sides are the same storage object of that name. */
  lemma {:induction false} ListOutcomesSound(storage: seq<Obj>, legacyNames: set<string>)
    ensures |ListOutcomes(storage, legacyNames)| <= |storage|
    ensures forall e :: e in ListOutcomes(storage, legacyNames) ==>
      && e.Outcome? && e.verb == "list" && e.name in legacyNames
      && e.storageSide == e.legacySide && e.storageSide.Single? && e.storageSide.obj.name == e.name && e.storageSide.obj in storage
    decreases |storage|
  {
    if storage != [] {
      var init := storage[..|storage| - 1];
      ListOutcomesSound(init, legacyNames);
      forall o | o in init ensures o in storage { }
    }
  }

  /** Extending the storage list by one object changes only the lookup of that object's name. */
  lemma LastNamedSnoc(objs: seq<Obj>, o: Obj, name: string)
    ensures LastNamed(objs + [o], name) == if o.name == name then Some(o) else LastNamed(objs, name)
  {
    assert (objs + [o])[..|objs|] == objs;
  }

  /**
   * One step of the substitution loop: the slot the index names for
   * `storage[k]` now holds it, and every other slot is as before.
   */
  lemma SlotStep(legacy: seq<Obj>, index: map<string, nat>, storage: seq<Obj>, k: nat, i: nat)
    requires IsNameIndex(legacy, index)
    requires k < |storage| && i < |legacy|
    ensures Slot(legacy, storage[..k + 1], i)
      == if storage[k].name in index && i == index[storage[k].name] then storage[k] else Slot(legacy, storage[..k], i)
  {
    var o := storage[k];
    assert storage[..k + 1] == storage[..k] + [o];
    LastNamedSnoc(storage[..k], o, legacy[i].name);
    if legacy[i].name == o.name {
      assert o.name in Names(legacy);
      if i == index[o.name] {
        assert IsLastOfName(legacy, i);
      } else {
        assert i < index[o.name];
        assert !IsLastOfName(legacy, i) by {
          assert legacy[index[o.name]].name == legacy[i].name;
        }
      }
    }
  }

  /** The whole list after one step of the substitution loop. */
  lemma SlotsStep(legacy: seq<Obj>, index: map<string, nat>, storage: seq<Obj>, k: nat, merged: seq<Obj>, next: seq<Obj>)
    requires IsNameIndex(legacy, index)
    requires k < |storage| && |merged| == |legacy|
    requires forall i :: 0 <= i < |legacy| ==> merged[i] == Slot(legacy, storage[..k], i)
    requires next == if storage[k].name in index then merged[index[storage[k].name] := storage[k]] else merged
    ensures |next| == |legacy|
    ensures forall i :: 0 <= i < |legacy| ==> next[i] == Slot(legacy, storage[..k + 1], i)
  {
    forall i | 0 <= i < |legacy| {
      SlotStep(legacy, index, storage, k, i);
    }
  }

  /** One more storage object adds its outcome exactly when its name is in the legacy list. */
  lemma ListOutcomesStep(storage: seq<Obj>, k: nat, legacyNames: set<string>)
    requires k < |storage|
    ensures ListOutcomes(storage[..k + 1], legacyNames)
      == ListOutcomes(storage[..k], legacyNames)
         + (if storage[k].name in legacyNames then [Outcome(storage[k].name, "list", Single(storage[k]), Single(storage[k]))] else [])
  {
    assert storage[..k + 1][..k] == storage[..k];
  }

  /** The loop of List over the storage items, overwriting legacy slots by name. */
  method SubstituteByName(legacy: seq<Obj>, index: map<string, nat>, storage: seq<Obj>) returns (merged: seq<Obj>, outcomes: seq<Event>)
    requires IsNameIndex(legacy, index)
    ensures |merged| == |legacy|
    ensures forall i :: 0 <= i < |legacy| ==> merged[i] == Slot(legacy, storage, i)
    ensures outcomes == ListOutcomes(storage, Names(legacy))
  {
    merged := legacy;
    outcomes := [];
    var k := 0;
    while k < |storage|
      invariant 0 <= k <= |storage|
      invariant |merged| == |legacy|
      invariant forall i :: 0 <= i < |legacy| ==> merged[i] == Slot(legacy, storage[..k], i)
      invariant outcomes == ListOutcomes(storage[..k], Names(legacy))
    {
      var obj := storage[k];
      ListOutcomesStep(storage, k, Names(legacy));
      ghost var before := merged;
      if obj.name in index {
        var i := index[obj.name];
        merged := merged[i := obj];
        outcomes := outcomes + [Outcome(obj.name, "list", Single(merged[i]), Single(merged[i]))];
      }
      SlotsStep(legacy, index, storage, k, before, merged);
      k := k + 1;
    }
    assert storage[..k] == storage;
  }

  /** The example of a three-item legacy list and a two-item storage list. */
  lemma ListSubstitutionExample(a: Obj, b: Obj, c: Obj, a2: Obj, c2: Obj)
    requires a.name == a2.name == "A" && b.name == "B" && c.name == "C" && c2.name == "C"
    ensures Slot([a, b, c], [a2, c2], 0) == a2
    ensures Slot([a, b, c], [a2, c2], 1) == b
    ensures Slot([a, b, c], [a2, c2], 2) == c2
    ensures ListOutcomes([a2, c2], Names([a, b, c])) == [Outcome("A", "list", Single(a2), Single(a2)), Outcome("C", "list", Single(c2), Single(c2))]
  {
    assert [a2, c2][..1] == [a2];
    assert [a2][..0] == [];
    assert "A" in Names([a, b, c]) && "C" in Names([a, b, c]) by {
      assert [a, b, c][0] == a && [a, b, c][2] == c;
    }
    assert Names([a2]) == {"A"} by {
      assert [a2][0] == a2;
    }
    assert "B" !in Names([a2, c2]);
    assert ListOutcomes([a2], Names([a, b, c])) == [Outcome("A", "list", Single(a2), Single(a2))];
  }

  // ---------------------------------------------------------------------------
  // Delete and Update as functions of both backends' state

  /**
   * What a dual-writer call returns and leaves behind: the reply, both
   * backends' objects, the calls made in order, and the events recorded.
   */
  datatype Written = Written(obj: RObj, flag: bool, err: Option<ApiError>,
                             legacyObjects: seq<Obj>, storageObjects: seq<Obj>, calls: seq<Call>, events: seq<Event>)

  /** `w` preceded by one call and the events recorded around it. */
  function After(c: Call, e: seq<Event>, w: Written): Written {
    w.(calls := [c] + w.calls, events := e + w.events)
  }

  /** Recording one call and its events, then `w`'s, is recording `After(c, e, w)`'s. */
  lemma AfterAppends(calls: seq<Call>, events: seq<Event>, c: Call, e: seq<Event>, w: Written)
    ensures calls + [c] + w.calls == calls + After(c, e, w).calls
    ensures events + e + w.events == events + After(c, e, w).events
  {
  }

  /**
   * Delete's storage half: storage's reply is returned, its error included
   * (NotFound too), with legacy's async flag.
   */
  function StorageDeleteStep(legacyObjects: seq<Obj>, storageObjects: seq<Obj>, storageFaults: map<Op, ApiError>,
                             storageAsync: bool, name: string, lr: Reply): Written {
    var sr := DeleteReply(storageObjects, storageFaults, storageAsync, name);
    var storageAfter := if sr.err.None? then Without(storageObjects, name) else storageObjects;
    var call := [Call(Unified, DeleteReq(name))];
    if sr.err.Some? then
      Written(sr.obj, lr.flag, sr.err, legacyObjects, storageAfter, call,
              if sr.err != Some(NotFound) then [Duration(Unified, true, "delete")] else [])
    else
      Written(sr.obj, lr.flag, None, legacyObjects, storageAfter, call,
              [Duration(Unified, false, "delete"), Outcome(name, "delete", sr.obj, lr.obj)])
  }

  /**
   * Delete: legacy first; a legacy error other than NotFound stops there.
   * Otherwise storage's half follows.
   */
  function DeleteStep(legacyObjects: seq<Obj>, legacyFaults: map<Op, ApiError>, legacyAsync: bool,
                      storageObjects: seq<Obj>, storageFaults: map<Op, ApiError>, storageAsync: bool, name: string): Written {
    var lr := DeleteReply(legacyObjects, legacyFaults, legacyAsync, name);
    var legacyAfter := if lr.err.None? then Without(legacyObjects, name) else legacyObjects;
    var call := Call(Legacy, DeleteReq(name));
    if lr.err.Some? && lr.err != Some(NotFound) then
      Written(lr.obj, lr.flag, lr.err, legacyAfter, storageObjects, [call], [Duration(Legacy, true, "delete")])
    else
      After(call, [Duration(Legacy, false, "delete")],
            StorageDeleteStep(legacyAfter, storageObjects, storageFaults, storageAsync, name, lr))
  }

  /**
   * A legacy delete error other than NotFound is returned as it is, with
   * legacy's async flag, before storage is called.
   */
  lemma DeleteStopsOnLegacyError(legacyObjects: seq<Obj>, legacyFaults: map<Op, ApiError>, legacyAsync: bool,
      storageObjects: seq<Obj>, storageFaults: map<Op, ApiError>, storageAsync: bool, name: string)
    requires DeleteReply(legacyObjects, legacyFaults, legacyAsync, name).err !in {None, Some(NotFound)}
    ensures var w := DeleteStep(legacyObjects, legacyFaults, legacyAsync, storageObjects, storageFaults, storageAsync, name);
      var lr := DeleteReply(legacyObjects, legacyFaults, legacyAsync, name);
      && w.obj == lr.obj && w.flag == lr.flag && w.err == lr.err
      && w.calls == [Call(Legacy, DeleteReq(name))] && w.storageObjects == storageObjects
  {
  }

  /**
   * Once legacy deleted the object or did not find it, storage is asked
   * second and its object and error are returned, NotFound included, with
   * legacy's async flag. A failed storage duration is recorded exactly when
   * storage failed with another error.
   */
  lemma DeleteReturnsStorageReply(legacyObjects: seq<Obj>, legacyFaults: map<Op, ApiError>, legacyAsync: bool,
      storageObjects: seq<Obj>, storageFaults: map<Op, ApiError>, storageAsync: bool, name: string)
    requires DeleteReply(legacyObjects, legacyFaults, legacyAsync, name).err in {None, Some(NotFound)}
    ensures var w := DeleteStep(legacyObjects, legacyFaults, legacyAsync, storageObjects, storageFaults, storageAsync, name);
      var lr := DeleteReply(legacyObjects, legacyFaults, legacyAsync, name);
      var sr := DeleteReply(storageObjects, storageFaults, storageAsync, name);
      && w.obj == sr.obj && w.flag == lr.flag && w.err == sr.err
      && |w.calls| == 2 && w.calls[1] == Call(Unified, DeleteReq(name))
      && (Duration(Unified, true, "delete") in w.events <==> sr.err.Some? && sr.err != Some(NotFound))
  {
  }


  /**
   * A delete that reports success leaves no object of that name in storage,
   * nor in legacy unless legacy's own delete was failed by an injected fault
   * (a NotFound, which the writer tolerates); every other object is kept.
   * A failed delete never changes storage.
   */
  lemma DeleteRemovesFromBoth(legacyObjects: seq<Obj>, legacyFaults: map<Op, ApiError>, legacyAsync: bool,
                              storageObjects: seq<Obj>, storageFaults: map<Op, ApiError>, storageAsync: bool, name: string)
    ensures var w := DeleteStep(legacyObjects, legacyFaults, legacyAsync, storageObjects, storageFaults, storageAsync, name);
      && (w.err.None? && OpDelete !in legacyFaults ==> forall o :: o in w.legacyObjects <==> o in legacyObjects && o.name != name)
      && (w.err.None? ==> forall o :: o in w.storageObjects <==> o in storageObjects && o.name != name)
      && (w.err.Some? ==> w.storageObjects == storageObjects)
  {
    var lr := DeleteReply(legacyObjects, legacyFaults, legacyAsync, name);
    if lr.err == Some(NotFound) && OpDelete !in legacyFaults {
      assert Find(legacyObjects, name).None?;
    }
  }

  /**
   * The object Update writes to storage, and whether creation is forced:
   * the legacy result enriched from storage's current object, or, when
   * storage had none, the legacy result with resourceVersion and UID
   * cleared and creation forced.
   */
  function Prepared(found: RObj, legacyResult: RObj, forceAllowCreate: bool): Result<(Obj, bool), ApiError> {
    if found != Nil then
      match Enrich(found, legacyResult)
      case Err(e) => Err(e)
      case Ok(o) => Ok((o, forceAllowCreate))
    else if !legacyResult.Single? then Err(NotAnObject)
    else Ok((legacyResult.obj.(resourceVersion := "", uid := ""), true))
  }

  /**
   * When storage held an object, the legacy result takes its labels,
   * resourceVersion and UID and keeps the caller's choice of forced
   * creation; when it held none, the legacy result is written with an empty
   * resourceVersion and UID and creation is forced. Only a result that is
   * not a single object fails.
   */
  lemma PreparedSound(found: RObj, legacyResult: RObj, forceAllowCreate: bool)
    ensures var p := Prepared(found, legacyResult, forceAllowCreate);
      && (p.Err? <==> !legacyResult.Single? || (found != Nil && !found.Single?))
      && (p.Err? ==> p.error == NotAnObject)
      && (p.Ok? && found != Nil ==>
            && p.value.0.labels == found.obj.labels && p.value.0.resourceVersion == found.obj.resourceVersion
            && p.value.0.uid == found.obj.uid && p.value.0.name == legacyResult.obj.name && p.value.1 == forceAllowCreate)
      && (p.Ok? && found == Nil ==>
            p.value == (legacyResult.obj.(resourceVersion := "", uid := ""), true))
  {
  }

  /**
   * Update's storage half, after legacy's update succeeded: the object is
   * prepared and written, and storage's reply is returned. A preparation
   * error returns legacy's object with no storage call.
   */
  function StorageUpdateStep(legacyObjects: seq<Obj>, storageObjects: seq<Obj>, storageFaults: map<Op, ApiError>,
                             name: string, found: RObj, lr: Reply, forceAllowCreate: bool): Written {
    var prepared := Prepared(found, lr.obj, forceAllowCreate);
    if prepared.Err? then Written(lr.obj, false, Some(prepared.error), legacyObjects, storageObjects, [], [])
    else
      var (toWrite, force) := prepared.value;
      var sr := UpdateReply(storageObjects, storageFaults, name, toWrite, force);
      var storageAfter := UpdateEffect(storageObjects, storageFaults, name, toWrite, force);
      var call := [Call(Unified, UpdateReq(name, toWrite, force))];
      if sr.err.Some? then Written(sr.obj, sr.flag, sr.err, legacyObjects, storageAfter, call, [Duration(Unified, true, "update")])
      else Written(sr.obj, sr.flag, None, legacyObjects, storageAfter, call, [Outcome(name, "update", sr.obj, Single(toWrite))])
  }

  /**
   * Update: storage's current object is read first (a failure other than
   * NotFound aborts before legacy is touched), legacy is updated with the
   * caller's object, and storage's half follows.
   */
  function UpdateStep(legacyObjects: seq<Obj>, legacyFaults: map<Op, ApiError>,
                      storageObjects: seq<Obj>, storageFaults: map<Op, ApiError>,
                      name: string, updated: Obj, forceAllowCreate: bool): Written {
    var fr := GetReply(storageObjects, storageFaults, name);
    var getCall := Call(Unified, GetReq(name));
    if fr.err.Some? && fr.err != Some(NotFound) then Written(Nil, false, fr.err, legacyObjects, storageObjects, [getCall], [])
    else
      var lr := UpdateReply(legacyObjects, legacyFaults, name, updated, forceAllowCreate);
      var legacyAfter := UpdateEffect(legacyObjects, legacyFaults, name, updated, forceAllowCreate);
      var legacyCall := Call(Legacy, UpdateReq(name, updated, forceAllowCreate));
      if lr.err.Some? then Written(lr.obj, lr.flag, lr.err, legacyAfter, storageObjects, [getCall, legacyCall], [Duration(Legacy, true, "update")])
      else
        After(getCall, [], After(legacyCall, [Duration(Legacy, false, "update")],
          StorageUpdateStep(legacyAfter, storageObjects, storageFaults, name, fr.obj, lr, forceAllowCreate)))
  }

  /**
   * A storage read error other than NotFound is returned with no object,
   * before legacy is called, and neither backend changes.
   */
  lemma UpdateStopsOnReadError(legacyObjects: seq<Obj>, legacyFaults: map<Op, ApiError>,
      storageObjects: seq<Obj>, storageFaults: map<Op, ApiError>,
      name: string, updated: Obj, forceAllowCreate: bool)
    requires GetReply(storageObjects, storageFaults, name).err !in {None, Some(NotFound)}
    ensures var w := UpdateStep(legacyObjects, legacyFaults, storageObjects, storageFaults, name, updated, forceAllowCreate);
      && w.obj == Nil && !w.flag && w.err == GetReply(storageObjects, storageFaults, name).err
      && w.calls == [Call(Unified, GetReq(name))]
      && w.legacyObjects == legacyObjects && w.storageObjects == storageObjects
  {
  }

  /** A legacy update error is returned with legacy's reply, and storage is not written. */
  lemma UpdateStopsOnLegacyError(legacyObjects: seq<Obj>, legacyFaults: map<Op, ApiError>,
      storageObjects: seq<Obj>, storageFaults: map<Op, ApiError>,
      name: string, updated: Obj, forceAllowCreate: bool)
    requires GetReply(storageObjects, storageFaults, name).err in {None, Some(NotFound)}
    requires UpdateReply(legacyObjects, legacyFaults, name, updated, forceAllowCreate).err.Some?
    ensures var w := UpdateStep(legacyObjects, legacyFaults, storageObjects, storageFaults, name, updated, forceAllowCreate);
      var lr := UpdateReply(legacyObjects, legacyFaults, name, updated, forceAllowCreate);
      && w.obj == lr.obj && w.flag == lr.flag && w.err == lr.err
      && w.storageObjects == storageObjects && |w.calls| == 2
  {
  }

  /**
   * Once legacy's update succeeded and the object is prepared, storage's
   * reply to the write is returned, created flag included, and a storage
   * success records no storage duration.
   */
  lemma UpdateReturnsStorageReply(legacyObjects: seq<Obj>, legacyFaults: map<Op, ApiError>,
      storageObjects: seq<Obj>, storageFaults: map<Op, ApiError>,
      name: string, updated: Obj, forceAllowCreate: bool)
    requires GetReply(storageObjects, storageFaults, name).err in {None, Some(NotFound)}
    requires UpdateReply(legacyObjects, legacyFaults, name, updated, forceAllowCreate).err.None?
    requires Prepared(GetReply(storageObjects, storageFaults, name).obj,
                      UpdateReply(legacyObjects, legacyFaults, name, updated, forceAllowCreate).obj, forceAllowCreate).Ok?
    ensures var w := UpdateStep(legacyObjects, legacyFaults, storageObjects, storageFaults, name, updated, forceAllowCreate);
      var lr := UpdateReply(legacyObjects, legacyFaults, name, updated, forceAllowCreate);
      var p := Prepared(GetReply(storageObjects, storageFaults, name).obj, lr.obj, forceAllowCreate);
      var sr := UpdateReply(storageObjects, storageFaults, name, p.value.0, p.value.1);
      && w.obj == sr.obj && w.flag == sr.flag && w.err == sr.err
      && (sr.err.None? ==> Duration(Unified, true, "update") !in w.events && Duration(Unified, false, "update") !in w.events)
  {
  }


  /**
   * Storage is always read first and legacy, if at all, is called second
   * with the caller's object. Storage is written only after legacy's update
   * succeeded and the object was prepared, and then it is the third and
   * last call, carrying the prepared object.
   */
  lemma UpdateWritesStorageAfterLegacy(legacyObjects: seq<Obj>, legacyFaults: map<Op, ApiError>,
      storageObjects: seq<Obj>, storageFaults: map<Op, ApiError>,
      name: string, updated: Obj, forceAllowCreate: bool)
    ensures var w := UpdateStep(legacyObjects, legacyFaults, storageObjects, storageFaults, name, updated, forceAllowCreate);
      var lr := UpdateReply(legacyObjects, legacyFaults, name, updated, forceAllowCreate);
      var p := Prepared(GetReply(storageObjects, storageFaults, name).obj, lr.obj, forceAllowCreate);
      && 1 <= |w.calls| <= 3 && w.calls[0] == Call(Unified, GetReq(name))
      && (|w.calls| > 1 ==> w.calls[1] == Call(Legacy, UpdateReq(name, updated, forceAllowCreate)))
      && (w.storageObjects != storageObjects ==>
            lr.err.None? && p.Ok? && |w.calls| == 3 && w.calls[2] == Call(Unified, UpdateReq(name, p.value.0, p.value.1)))
  {
  }


  // ---------------------------------------------------------------------------
  // The writer

  class DualWriterMode2 {
    const legacy: Store
    const storage: Store
    const journal: Journal
    const resource: string
    var events: seq<Event>

    ghost predicate Valid() {
      && legacy.backend == Legacy && storage.backend == Unified
      && legacy.journal == journal && storage.journal == journal
    }

    constructor (legacy: Store, storage: Store, resource: string)
      requires legacy.backend == Legacy && storage.backend == Unified && legacy.journal == storage.journal
      ensures Valid()
      ensures this.legacy == legacy && this.storage == storage && this.resource == resource && events == []
    {
      this.legacy := legacy;
      this.storage := storage;
      this.journal := legacy.journal;
      this.resource := resource;
      events := [];
    }

    /**
     * Create: legacy first. A legacy failure is returned unchanged and storage
     * is never called. Otherwise the legacy result, enriched from `original`,
     * is written to storage; a storage failure is returned without rolling
     * back legacy; on success storage's object is returned.
     */
    method Create(original: Obj) returns (r: RObj, err: Option<ApiError>)
      requires Valid()
      modifies legacy`objects, storage`objects, journal`calls, this`events
      ensures Valid()
      ensures var lr := CreateReply(old(legacy.objects), legacy.faults, original);
        lr.err.Some? ==>
          && r == lr.obj && err == lr.err
          && journal.calls == old(journal.calls) + [Call(Legacy, CreateReq(original))]
          && legacy.objects == old(legacy.objects) && storage.objects == old(storage.objects)
          && events == old(events) + [Duration(Legacy, true, "create")]
      ensures var lr := CreateReply(old(legacy.objects), legacy.faults, original);
        lr.err.None? && Enrich(Single(original), lr.obj).Err? ==>
          && r == lr.obj && err == Some(Enrich(Single(original), lr.obj).error)
          && legacy.objects == old(legacy.objects) + [original] && storage.objects == old(storage.objects)
          && journal.calls == old(journal.calls) + [Call(Legacy, CreateReq(original))]
          && events == old(events) + [Duration(Legacy, false, "create")]
      ensures var lr := CreateReply(old(legacy.objects), legacy.faults, original);
        lr.err.None? && Enrich(Single(original), lr.obj).Ok? ==>
          var enriched := Enrich(Single(original), lr.obj).value;
          var sr := CreateReply(old(storage.objects), storage.faults, enriched);
          && legacy.objects == old(legacy.objects) + [original]
          && storage.objects == (if sr.err.None? then old(storage.objects) + [enriched] else old(storage.objects))
          && journal.calls == old(journal.calls) + [Call(Legacy, CreateReq(original)), Call(Unified, CreateReq(enriched))]
          && r == sr.obj && err == sr.err
          && (sr.err.Some? ==> events == old(events) + [Duration(Legacy, false, "create"), Duration(Unified, true, "create")])
          && (sr.err.None? ==> events == old(events) + [Duration(Legacy, false, "create"), Duration(Unified, false, "create"),
                                                      Outcome(NameOf(sr.obj), "create", sr.obj, Single(enriched))])
    {
      var lr := legacy.Create(original);
      if lr.err.Some? {
        events := events + [Duration(Legacy, true, "create")];
        return lr.obj, lr.err;
      }
      events := events + [Duration(Legacy, false, "create")];

      var enriched := Enrich(Single(original), lr.obj);
      if enriched.Err? {
        return lr.obj, Some(enriched.error);
      }

      var sr := storage.Create(enriched.value);
      if sr.err.Some? {
        events := events + [Duration(Unified, true, "create")];
        return sr.obj, sr.err;
      }
      events := events + [Duration(Unified, false, "create")];
      events := events + [Outcome(NameOf(sr.obj), "create", sr.obj, Single(enriched.value))];
      return sr.obj, sr.err;
    }

    /**
     * Get: storage first. A storage failure other than NotFound is returned.
     * Otherwise legacy is read; its failure is returned; on success storage's
     * object is returned, or legacy's when storage had none.
     */
    method Get(name: string) returns (r: RObj, err: Option<ApiError>)
      requires Valid()
      modifies journal`calls, this`events
      ensures Valid()
      ensures var sr := GetReply(storage.objects, storage.faults, name);
        sr.err.Some? && sr.err != Some(NotFound) ==>
          && r == sr.obj && err == sr.err
          && journal.calls == old(journal.calls) + [Call(Unified, GetReq(name))]
          && events == old(events) + [Duration(Unified, true, "get")]
      ensures var sr := GetReply(storage.objects, storage.faults, name);
        var lr := GetReply(legacy.objects, legacy.faults, name);
        (sr.err.None? || sr.err == Some(NotFound)) ==>
          && journal.calls == old(journal.calls) + [Call(Unified, GetReq(name)), Call(Legacy, GetReq(name))]
          && (lr.err.Some? ==>
                && r == lr.obj && err == lr.err
                && events == old(events) + [Duration(Unified, sr.err.Some?, "get"), Duration(Legacy, true, "get")])
          && (lr.err.None? ==>
                && r == (if sr.obj == Nil then lr.obj else sr.obj) && err == None
                && events == old(events) + [Duration(Unified, sr.err.Some?, "get"), Duration(Legacy, false, "get"),
                                            Outcome(name, "get", sr.obj, lr.obj)])
    {
      var sr := storage.Get(name);
      events := events + [Duration(Unified, sr.err.Some?, "get")];
      if sr.err.Some? && sr.err != Some(NotFound) {
        return sr.obj, sr.err;
      }

      var lr := legacy.Get(name);
      if lr.err.Some? {
        events := events + [Duration(Legacy, true, "get")];
        return lr.obj, lr.err;
      }
      events := events + [Duration(Legacy, false, "get")];
      events := events + [Outcome(name, "get", sr.obj, lr.obj)];
      if sr.obj == Nil {
        return lr.obj, None;
      }
      return sr.obj, None;
    }

    /**
     * List: the legacy list, with every slot whose name also occurs in
     * storage replaced by storage's object. A failure of either list call is
     * returned as is.
     */
    method List() returns (r: RObj, err: Option<ApiError>)
      requires Valid()
      modifies journal`calls, this`events
      ensures Valid()
      ensures var lr := ListReply(legacy.objects, legacy.faults);
        lr.err.Some? ==>
          && r == lr.obj && err == lr.err
          && journal.calls == old(journal.calls) + [Call(Legacy, ListReq)]
          && events == old(events) + [Duration(Legacy, true, "list")]
      ensures var lr := ListReply(legacy.objects, legacy.faults);
        var sr := ListReply(storage.objects, storage.faults);
        lr.err.None? && sr.err.Some? ==>
          && r == sr.obj && err == sr.err
          && journal.calls == old(journal.calls) + [Call(Legacy, ListReq), Call(Unified, ListReq)]
          && events == old(events) + [Duration(Legacy, false, "list"), Duration(Unified, true, "list")]
      ensures var lr := ListReply(legacy.objects, legacy.faults);
        var sr := ListReply(storage.objects, storage.faults);
        lr.err.None? && sr.err.None? ==>
          && err == None && r.Items? && |r.items| == |legacy.objects|
          && (forall i :: 0 <= i < |legacy.objects| ==> r.items[i] == Slot(legacy.objects, storage.objects, i))
          && journal.calls == old(journal.calls) + [Call(Legacy, ListReq), Call(Unified, ListReq)]
          && events == old(events) + [Duration(Legacy, false, "list"), Duration(Unified, false, "list")]
                                   + ListOutcomes(storage.objects, Names(legacy.objects))
    {
      var lr := legacy.List();
      if lr.err.Some? {
        events := events + [Duration(Legacy, true, "list")];
        return lr.obj, lr.err;
      }
      events := events + [Duration(Legacy, false, "list")];
      if !lr.obj.Items? {
        return Nil, Some(NotAList);
      }
      var legacyList := lr.obj.items;
      var index := ParseList(legacyList);

      var sr := storage.List();
      if sr.err.Some? {
        events := events + [Duration(Unified, true, "list")];
        return sr.obj, sr.err;
      }
      events := events + [Duration(Unified, false, "list")];
      if !sr.obj.Items? {
        return Nil, Some(NotAList);
      }

      var merged, outcomes := SubstituteByName(legacyList, index, sr.obj.items);
      events := events + outcomes;
      return Items(merged), None;
    }

    /**
     * DeleteCollection: legacy first, then storage; a failure of either is
     * returned as is. Storage's result is returned and compared with legacy's.
     */
    method DeleteCollection() returns (r: RObj, err: Option<ApiError>)
      requires Valid()
      modifies legacy`objects, storage`objects, journal`calls, this`events
      ensures Valid()
      ensures var lr := DeleteCollectionReply(old(legacy.objects), legacy.faults);
        lr.err.Some? ==>
          && r == lr.obj && err == lr.err
          && legacy.objects == old(legacy.objects) && storage.objects == old(storage.objects)
          && journal.calls == old(journal.calls) + [Call(Legacy, DeleteCollectionReq)]
          && events == old(events) + [Duration(Legacy, true, "delete-collection")]
      ensures var lr := DeleteCollectionReply(old(legacy.objects), legacy.faults);
        var sr := DeleteCollectionReply(old(storage.objects), storage.faults);
        lr.err.None? ==>
          && legacy.objects == []
          && storage.objects == (if sr.err.None? then [] else old(storage.objects))
          && journal.calls == old(journal.calls) + [Call(Legacy, DeleteCollectionReq), Call(Unified, DeleteCollectionReq)]
          && r == sr.obj && err == sr.err
          && (sr.err.Some? ==> events == old(events) + [Duration(Legacy, false, "delete-collection"), Duration(Unified, true, "delete-collection")])
          && (sr.err.None? ==> events == old(events) + [Duration(Legacy, false, "delete-collection"), Duration(Unified, false, "delete-collection"),
                                                      Outcome(NameOf(sr.obj), "delete-collection", sr.obj, lr.obj)])
    {
      var lr := legacy.DeleteCollection();
      if lr.err.Some? {
        events := events + [Duration(Legacy, true, "delete-collection")];
        return lr.obj, lr.err;
      }
      events := events + [Duration(Legacy, false, "delete-collection")];
      if !lr.obj.Items? {
        return Nil, Some(NotAList);
      }
      var _ := ParseList(lr.obj.items);

      var sr := storage.DeleteCollection();
      if sr.err.Some? {
        events := events + [Duration(Unified, true, "delete-collection")];
        return sr.obj, sr.err;
      }
      events := events + [Duration(Unified, false, "delete-collection")];
      events := events + [Outcome(NameOf(sr.obj), "delete-collection", sr.obj, lr.obj)];
      return sr.obj, None;
    }

    /** Delete: legacy first, then storage. */
    method Delete(name: string) returns (r: RObj, async: bool, err: Option<ApiError>)
      requires Valid()
      modifies legacy`objects, storage`objects, journal`calls, this`events
      ensures Valid()
      ensures var w := DeleteStep(old(legacy.objects), legacy.faults, legacy.asyncDelete,
                                  old(storage.objects), storage.faults, storage.asyncDelete, name);
        && r == w.obj && async == w.flag && err == w.err
        && legacy.objects == w.legacyObjects && storage.objects == w.storageObjects
        && journal.calls == old(journal.calls) + w.calls && events == old(events) + w.events
    {
      ghost var calls0, events0 := journal.calls, events;
      var lr := legacy.Delete(name);
      if lr.err.Some? && lr.err != Some(NotFound) {
        events := events + [Duration(Legacy, true, "delete")];
        return lr.obj, lr.flag, lr.err;
      }
      events := events + [Duration(Legacy, false, "delete")];
      r, async, err := DeleteFromStorage(name, lr);
      AfterAppends(calls0, events0, Call(Legacy, DeleteReq(name)), [Duration(Legacy, false, "delete")],
                   StorageDeleteStep(legacy.objects, old(storage.objects), storage.faults, storage.asyncDelete, name, lr));
    }

    /** The storage half of Delete, given legacy's reply. */
    method DeleteFromStorage(name: string, lr: Reply) returns (r: RObj, async: bool, err: Option<ApiError>)
      requires Valid()
      modifies storage`objects, journal`calls, this`events
      ensures Valid()
      ensures var w := StorageDeleteStep(legacy.objects, old(storage.objects), storage.faults, storage.asyncDelete, name, lr);
        && r == w.obj && async == w.flag && err == w.err && storage.objects == w.storageObjects
        && journal.calls == old(journal.calls) + w.calls && events == old(events) + w.events
    {
      var sr := storage.Delete(name);
      if sr.err.Some? {
        if sr.err != Some(NotFound) {
          events := events + [Duration(Unified, true, "delete")];
        }
        return sr.obj, lr.flag, sr.err;
      }
      events := events + [Duration(Unified, false, "delete"), Outcome(name, "delete", sr.obj, lr.obj)];
      return sr.obj, lr.flag, None;
    }

    /** Update: storage is read, legacy updated, then storage written. */
    method Update(name: string, updated: Obj, forceAllowCreate: bool) returns (r: RObj, created: bool, err: Option<ApiError>)
      requires Valid()
      modifies legacy`objects, storage`objects, journal`calls, this`events
      ensures Valid()
      ensures var w := UpdateStep(old(legacy.objects), legacy.faults, old(storage.objects), storage.faults, name, updated, forceAllowCreate);
        && r == w.obj && created == w.flag && err == w.err
        && legacy.objects == w.legacyObjects && storage.objects == w.storageObjects
        && journal.calls == old(journal.calls) + w.calls && events == old(events) + w.events
    {
      ghost var calls0, events0 := journal.calls, events;
      var fr := storage.Get(name);
      if fr.err.Some? && fr.err != Some(NotFound) {
        return Nil, false, fr.err;
      }

      var lr := legacy.Update(name, updated, forceAllowCreate);
      if lr.err.Some? {
        events := events + [Duration(Legacy, true, "update")];
        return lr.obj, lr.flag, lr.err;
      }
      events := events + [Duration(Legacy, false, "update")];
      r, created, err := WriteToStorage(name, fr.obj, lr, forceAllowCreate);
      ghost var tail := StorageUpdateStep(legacy.objects, old(storage.objects), storage.faults, name, fr.obj, lr, forceAllowCreate);
      ghost var legacyCall := Call(Legacy, UpdateReq(name, updated, forceAllowCreate));
      AfterAppends(calls0 + [Call(Unified, GetReq(name))], events0, legacyCall, [Duration(Legacy, false, "update")], tail);
      AfterAppends(calls0, events0, Call(Unified, GetReq(name)), [], After(legacyCall, [Duration(Legacy, false, "update")], tail));
    }

    /**
     * The storage half of Update: the legacy result is enriched from the
     * object storage held, or stripped and force-created when it held none,
     * and written to storage.
     */
    method WriteToStorage(name: string, found: RObj, lr: Reply, forceAllowCreate: bool) returns (r: RObj, created: bool, err: Option<ApiError>)
      requires Valid()
      modifies storage`objects, journal`calls, this`events
      ensures Valid()
      ensures var w := StorageUpdateStep(legacy.objects, old(storage.objects), storage.faults, name, found, lr, forceAllowCreate);
        && r == w.obj && created == w.flag && err == w.err && storage.objects == w.storageObjects
        && journal.calls == old(journal.calls) + w.calls && events == old(events) + w.events
    {
      var toWrite: Obj;
      var force := forceAllowCreate;
      if found != Nil {
        var enriched := Enrich(found, lr.obj);
        if enriched.Err? {
          return lr.obj, false, Some(enriched.error);
        }
        toWrite := enriched.value;
      } else {
        if !lr.obj.Single? {
          return lr.obj, false, Some(NotAnObject);
        }
        toWrite := lr.obj.obj.(resourceVersion := "", uid := "");
        force := true;
      }

      var sr := storage.Update(name, toWrite, force);
      if sr.err.Some? {
        events := events + [Duration(Unified, true, "update")];
        return sr.obj, sr.flag, sr.err;
      }
      events := events + [Outcome(name, "update", sr.obj, Single(toWrite))];
      return sr.obj, sr.flag, None;
    }

    /** Destroy: storage, then legacy. */
    method Destroy()
      requires Valid()
      modifies storage`destroyed, legacy`destroyed, journal`calls
      ensures storage.destroyed && legacy.destroyed
      ensures journal.calls == old(journal.calls) + [Call(Unified, DestroyReq), Call(Legacy, DestroyReq)]
    {
      storage.Destroy();
      legacy.Destroy();
    }

    /** The introspection calls answer for storage, never for legacy. */
    function GetSingularName(): (r: string)
      ensures r == storage.singularName
    {
      storage.singularName
    }

    function NamespaceScoped(): (r: bool)
      ensures r == storage.namespaceScoped
    {
      storage.namespaceScoped
    }

    function New(): (r: Obj)
      ensures r == storage.New()
    {
      storage.New()
    }

    function NewList(): (r: RObj)
      ensures r == storage.NewList()
    {
      storage.NewList()
    }

    function ConvertToTable(o: RObj): (r: Result<Table, ApiError>)
      ensures r == storage.ConvertToTable(o)
    {
      storage.ConvertToTable(o)
    }
  }
}
