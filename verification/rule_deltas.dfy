/**
 * The difference between the alert rules stored in one rule group and the
 * rules submitted for that group: which submitted rules are new, which
 * update a stored rule (possibly one moved in from another group), and
 * which stored rules of the group are no longer submitted.
 */
module RuleDeltas {
  import opened Wrappers

  datatype GroupKey = GroupKey(orgId: int, namespaceUid: string, ruleGroup: string)

  /** An alert rule; every field the diff may look at besides the key is folded into `body`. */
  datatype AlertRule = AlertRule(uid: string, orgId: int, namespaceUid: string, ruleGroup: string, version: int, body: string)
  {
    function GroupKeyOf(): (k: GroupKey)
      ensures k.orgId == orgId && k.namespaceUid == namespaceUid && k.ruleGroup == ruleGroup
    {
      GroupKey(orgId, namespaceUid, ruleGroup)
    }
  }

  datatype RuleDelta = RuleDelta(existing: AlertRule, updated: AlertRule, diff: seq<string>)

  /** Delete follows Go map iteration order, so it is a set. */
  datatype GroupDelta = GroupDelta(
    groupKey: GroupKey,
    affectedGroups: map<GroupKey, seq<AlertRule>>,
    toAdd: seq<AlertRule>,
    toUpdate: seq<RuleDelta>,
    toDelete: set<AlertRule>)

  datatype DeltaError = ListFailed | GroupQueryFailed | RuleNotFound(uid: string)

  /**
   * The rule store as the computation sees it: the stored rules and whether
   * each of its two queries fails.
   */
  datatype RuleReader = RuleReader(rules: seq<AlertRule>, listFails: bool, groupQueryFails: bool)

  /** The fields the diff of a matched rule ignores. */
  const AlertRuleFieldsToIgnoreInDiff: seq<string> := ["ID", "Version", "Updated"]

  /** IsEmpty: no rule to add, update or delete. */
  function IsEmpty(d: GroupDelta): (r: bool)
    ensures r <==> d.toAdd == [] && d.toUpdate == [] && d.toDelete == {}
  {
    |d.toUpdate| + |d.toAdd| + |d.toDelete| == 0
  }

  // ---------------------------------------------------------------------------
  // The two reader queries

  /** ListAlertRules for one group: the stored rules whose group key is `k`, in store order. */
  function RulesInGroup(rules: seq<AlertRule>, k: GroupKey): (r: seq<AlertRule>)
    ensures |r| <= |rules|
  {
    if rules == [] then []
    else (if rules[0].GroupKeyOf() == k then [rules[0]] else []) + RulesInGroup(rules[1..], k)
  }

  /** The group query returns exactly the stored rules of the group. */
  lemma {:induction false} RulesInGroupMembers(rules: seq<AlertRule>, k: GroupKey)
    ensures forall x :: x in RulesInGroup(rules, k) <==> x in rules && x.GroupKeyOf() == k
  {
    if rules != [] {
      RulesInGroupMembers(rules[1..], k);
      assert forall x :: x in rules <==> x == rules[0] || x in rules[1..];
    }
  }

  function FindByUid(rules: seq<AlertRule>, orgId: int, uid: string): (r: Option<AlertRule>)
    ensures r.Some? ==> r.value in rules && r.value.uid == uid && r.value.orgId == orgId
    ensures r.None? <==> forall x :: x in rules ==> !(x.uid == uid && x.orgId == orgId)
  {
    if rules == [] then None
    else if rules[0].uid == uid && rules[0].orgId == orgId then Some(rules[0])
    else FindByUid(rules[1..], orgId, uid)
  }

  /** GetAlertRulesGroupByRuleUID: every rule of the group holding the rule with this UID in this org, or none. */
  function GroupOfUid(rules: seq<AlertRule>, orgId: int, uid: string): (r: seq<AlertRule>)
    ensures FindByUid(rules, orgId, uid).None? ==> r == []
    ensures FindByUid(rules, orgId, uid).Some? ==>
      r == RulesInGroup(rules, FindByUid(rules, orgId, uid).value.GroupKeyOf())
      && FindByUid(rules, orgId, uid).value in r
  {
    match FindByUid(rules, orgId, uid)
    case None => []
    case Some(x) =>
      RulesInGroupMembers(rules, x.GroupKeyOf());
      RulesInGroup(rules, x.GroupKeyOf())
  }

  // ---------------------------------------------------------------------------
  // Helpers over submitted rules

  function UidsOf(rules: seq<AlertRule>): set<string> {
    set i | 0 <= i < |rules| :: rules[i].uid
  }

  /** The UIDs a submission names (the empty UID names nothing). */
  function SubmittedUids(rules: seq<AlertRule>): set<string> {
    set i | 0 <= i < |rules| && rules[i].uid != "" :: rules[i].uid
  }

  /** The submitted rules without UID, in submission order. */
  function WithoutUid(rules: seq<AlertRule>): (r: seq<AlertRule>)
    ensures |r| <= |rules|
    decreases |rules|
  {
    if rules == [] then []
    else WithoutUid(rules[..|rules| - 1]) + (if rules[|rules| - 1].uid == "" then [rules[|rules| - 1]] else [])
  }

  /** The rules kept are exactly the submitted rules without UID. */
  lemma {:induction false} WithoutUidMembers(rules: seq<AlertRule>)
    ensures forall x :: x in WithoutUid(rules) <==> x in rules && x.uid == ""
    decreases |rules|
  {
    if rules != [] {
      var init := rules[..|rules| - 1];
      WithoutUidMembers(init);
      assert rules == init + [rules[|rules| - 1]];
    }
  }

  /** The UIDs of the stored rules of one org. */
  function OrgUids(rules: seq<AlertRule>, orgId: int): set<string> {
    set x | x in rules && x.orgId == orgId :: x.uid
  }

  lemma SubmittedUidsSnoc(done: seq<AlertRule>, rule: AlertRule)
    ensures SubmittedUids(done + [rule]) == SubmittedUids(done) + (if rule.uid != "" then {rule.uid} else {})
  {
    var a := done + [rule];
    forall u | u in SubmittedUids(a)
      ensures u in SubmittedUids(done) + (if rule.uid != "" then {rule.uid} else {})
    {
      var i :| 0 <= i < |a| && a[i].uid != "" && a[i].uid == u;
      if i < |done| { assert done[i] == a[i]; }
    }
    forall u | u in SubmittedUids(done)
      ensures u in SubmittedUids(a)
    {
      var i :| 0 <= i < |done| && done[i].uid != "" && done[i].uid == u;
      assert a[i] == done[i];
    }
    if rule.uid != "" {
      assert a[|done|] == rule;
    }
  }

  /** A cache of loaded rules is sound when it maps UIDs to stored rules with that UID. */
  ghost predicate CacheSound(rules: seq<AlertRule>, orgId: int, loaded: map<string, AlertRule>) {
    forall u :: u in loaded ==> loaded[u] in rules && loaded[u].uid == u && loaded[u].orgId == orgId
  }

  lemma UidsOfSnoc(rules: seq<AlertRule>, rule: AlertRule)
    ensures UidsOf(rules + [rule]) == UidsOf(rules) + {rule.uid}
  {
    var a := rules + [rule];
    forall u | u in UidsOf(a) ensures u in UidsOf(rules) + {rule.uid} {
      var j :| 0 <= j < |a| && a[j].uid == u;
      if j < |rules| {
        assert rules[j] == a[j];
      }
    }
    forall u | u in UidsOf(rules) ensures u in UidsOf(a) {
      var j :| 0 <= j < |rules| && rules[j].uid == u;
      assert a[j] == rules[j];
    }
    assert a[|rules|] == rule;
  }

  /** The map of stored group rules by UID, filled in order: a later rule with the same UID replaces an earlier one. */
  function UidIndex(rules: seq<AlertRule>): (index: map<string, AlertRule>)
    decreases |rules|
  {
    if rules == [] then map[]
    else UidIndex(rules[..|rules| - 1])[rules[|rules| - 1].uid := rules[|rules| - 1]]
  }

  /** The index's keys are exactly the rules' UIDs, and each key maps to a rule with that UID. */
  lemma {:induction false} UidIndexSound(rules: seq<AlertRule>)
    ensures UidIndex(rules).Keys == UidsOf(rules)
    ensures forall u :: u in UidIndex(rules) ==> UidIndex(rules)[u] in rules && UidIndex(rules)[u].uid == u
    decreases |rules|
  {
    if rules != [] {
      var init, last := rules[..|rules| - 1], rules[|rules| - 1];
      UidIndexSound(init);
      assert rules == init + [last];
      UidsOfSnoc(init, last);
    }
  }

  method IndexByUid(rules: seq<AlertRule>) returns (index: map<string, AlertRule>)
    ensures index == UidIndex(rules)
  {
    index := map[];
    var i := 0;
    while i < |rules|
      invariant 0 <= i <= |rules|
      invariant index == UidIndex(rules[..i])
    {
      assert rules[..i + 1][..i] == rules[..i];
      index := index[rules[i].uid := rules[i]];
      i := i + 1;
    }
    assert rules[..i] == rules;
  }

  /** What the inner loop over a group query's result leaves: the rule found and the cache. */
  datatype Loaded = Loaded(existing: Option<AlertRule>, loaded: map<string, AlertRule>)

  /**
   * The inner loop over a group query's result: every rule enters the cache
   * under its UID, and the last one with the sought UID is the match.
   */
  function LoadInto(result: seq<AlertRule>, uid: string, loadedIn: map<string, AlertRule>): (l: Loaded)
    ensures loadedIn.Keys <= l.loaded.Keys
    ensures l.existing.Some? ==> l.existing.value in result && l.existing.value.uid == uid && uid in l.loaded
    decreases |result|
  {
    if result == [] then Loaded(None, loadedIn)
    else
      var init, rule := result[..|result| - 1], result[|result| - 1];
      var l := LoadInto(init, uid, loadedIn);
      assert result == init + [rule];
      Loaded(if rule.uid == uid then Some(rule) else l.existing, l.loaded[rule.uid := rule])
  }

  /** Loading stored rules of the org keeps the cache sound; nothing is found exactly when no loaded rule has the UID. */
  lemma {:induction false} LoadIntoSound(rules: seq<AlertRule>, orgId: int, result: seq<AlertRule>, uid: string, loadedIn: map<string, AlertRule>)
    requires forall x :: x in result ==> x in rules && x.orgId == orgId
    requires CacheSound(rules, orgId, loadedIn)
    ensures CacheSound(rules, orgId, LoadInto(result, uid, loadedIn).loaded)
    ensures LoadInto(result, uid, loadedIn).existing.None? <==> forall x :: x in result ==> x.uid != uid
    decreases |result|
  {
    if result != [] {
      var init, rule := result[..|result| - 1], result[|result| - 1];
      assert result == init + [rule];
      LoadIntoSound(rules, orgId, init, uid, loadedIn);
    }
  }

  method LoadGroup(result: seq<AlertRule>, uid: string, loadedIn: map<string, AlertRule>)
      returns (existing: Option<AlertRule>, loaded: map<string, AlertRule>)
    ensures Loaded(existing, loaded) == LoadInto(result, uid, loadedIn)
  {
    existing := None;
    loaded := loadedIn;
    var k := 0;
    while k < |result|
      invariant 0 <= k <= |result|
      invariant Loaded(existing, loaded) == LoadInto(result[..k], uid, loadedIn)
    {
      assert result[..k + 1][..k] == result[..k];
      var rule := result[k];
      if rule.uid == uid {
        existing := Some(rule);
      }
      loaded := loaded[rule.uid := rule];
      k := k + 1;
    }
    assert result[..k] == result;
  }

  /** Loading a group query's result adds exactly the UIDs of its rules to the cache. */
  lemma {:induction false} LoadIntoKeys(result: seq<AlertRule>, uid: string, loadedIn: map<string, AlertRule>)
    ensures LoadInto(result, uid, loadedIn).loaded.Keys == loadedIn.Keys + UidsOf(result)
    decreases |result|
  {
    if result != [] {
      var init, rule := result[..|result| - 1], result[|result| - 1];
      assert result == init + [rule];
      LoadIntoKeys(init, uid, loadedIn);
      UidsOfSnoc(init, rule);
    }
  }

  // ---------------------------------------------------------------------------
  // Reference definitions for what CalculateChanges must produce

  /** The rule table's unique key: within one org, no two different stored rules share a UID. */
  ghost predicate UidsUniqueInOrg(rules: seq<AlertRule>) {
    forall x, y :: x in rules && y in rules && x.uid == y.uid && x.orgId == y.orgId ==> x == y
  }

  /** Under the unique key, the lookup by UID finds the one stored rule with that UID. */
  lemma UniqueFind(rules: seq<AlertRule>, orgId: int, x: AlertRule)
    requires UidsUniqueInOrg(rules) && x in rules && x.orgId == orgId
    ensures FindByUid(rules, orgId, x.uid) == Some(x)
  {
  }

  /**
   * The update one submitted rule yields against the stored rule of the org
   * with its UID: the patched rule with the diff, when the diff is not empty.
   */
  function UpdateFor(rules: seq<AlertRule>, orgId: int, rule: AlertRule,
                     patch: (AlertRule, AlertRule) -> AlertRule, diff: (AlertRule, AlertRule, seq<string>) -> seq<string>): (u: seq<RuleDelta>)
    ensures |u| <= 1
    ensures u != [] ==> rule.uid != "" && u[0].existing in rules && u[0].existing.uid == rule.uid && u[0].existing.orgId == orgId
                        && u[0].updated == patch(u[0].existing, rule) && u[0].diff == diff(u[0].existing, u[0].updated, AlertRuleFieldsToIgnoreInDiff)
                        && u[0].diff != []
  {
    if rule.uid == "" then []
    else match FindByUid(rules, orgId, rule.uid)
      case None => []
      case Some(f) =>
        var d := diff(f, patch(f, rule), AlertRuleFieldsToIgnoreInDiff);
        if d != [] then [RuleDelta(f, patch(f, rule), d)] else []
  }

  /** The update list the submission calls for: one update per submitted rule that changes its stored rule, in submission order. */
  function ExpectedUpdates(rules: seq<AlertRule>, orgId: int, submitted: seq<AlertRule>,
                           patch: (AlertRule, AlertRule) -> AlertRule, diff: (AlertRule, AlertRule, seq<string>) -> seq<string>): seq<RuleDelta>
    decreases |submitted|
  {
    if submitted == [] then []
    else ExpectedUpdates(rules, orgId, submitted[..|submitted| - 1], patch, diff)
         + UpdateFor(rules, orgId, submitted[|submitted| - 1], patch, diff)
  }

  /** The first submitted UID that no stored rule of the org has. */
  function FirstUnknownUid(rules: seq<AlertRule>, orgId: int, submitted: seq<AlertRule>): Option<string>
    decreases |submitted|
  {
    if submitted == [] then None
    else
      var first := FirstUnknownUid(rules, orgId, submitted[..|submitted| - 1]);
      var last := submitted[|submitted| - 1];
      if first.Some? then first
      else if last.uid != "" && last.uid !in OrgUids(rules, orgId) then Some(last.uid)
      else None
  }

  /** There is no unknown UID exactly when every submitted UID names a stored rule of the org. */
  lemma {:induction false} FirstUnknownUidNone(rules: seq<AlertRule>, orgId: int, submitted: seq<AlertRule>)
    ensures FirstUnknownUid(rules, orgId, submitted).None? <==> SubmittedUids(submitted) <= OrgUids(rules, orgId)
    ensures FirstUnknownUid(rules, orgId, submitted).Some? ==>
      FirstUnknownUid(rules, orgId, submitted).value in SubmittedUids(submitted) - OrgUids(rules, orgId)
    decreases |submitted|
  {
    if submitted == [] {
      assert SubmittedUids(submitted) == {};
    } else {
      var init, last := submitted[..|submitted| - 1], submitted[|submitted| - 1];
      assert submitted == init + [last];
      FirstUnknownUidNone(rules, orgId, init);
      SubmittedUidsSnoc(init, last);
    }
  }

  /** Every submitted UID names a rule of the group, and no UID is submitted twice. */
  predicate MatchesGroupOnce(submitted: seq<AlertRule>, groupUids: set<string>)
    decreases |submitted|
  {
    submitted == [] ||
    var init, last := submitted[..|submitted| - 1], submitted[|submitted| - 1];
    MatchesGroupOnce(init, groupUids) && (last.uid == "" || (last.uid in groupUids && last.uid !in SubmittedUids(init)))
  }

  /** How many submitted rules carry this UID. */
  function Occurrences(submitted: seq<AlertRule>, uid: string): nat
    decreases |submitted|
  {
    if submitted == [] then 0
    else Occurrences(submitted[..|submitted| - 1], uid) + (if submitted[|submitted| - 1].uid == uid then 1 else 0)
  }

  lemma {:induction false} OccurrencesPositive(submitted: seq<AlertRule>, uid: string)
    requires uid in SubmittedUids(submitted)
    ensures Occurrences(submitted, uid) >= 1
    decreases |submitted|
  {
    var init, last := submitted[..|submitted| - 1], submitted[|submitted| - 1];
    assert submitted == init + [last];
    SubmittedUidsSnoc(init, last);
    if last.uid != uid {
      OccurrencesPositive(init, uid);
    }
  }

  // ---------------------------------------------------------------------------
  // CalculateChanges

  /**
   * The bookkeeping of the scan over the submitted rules: the stored group
   * rules not matched yet (by UID), the cache of rules loaded from other
   * groups, the affected groups, and the UIDs the group query was issued for.
   */
  datatype Scan = Scan(remaining: map<string, AlertRule>, loaded: map<string, AlertRule>,
                       affected: map<GroupKey, seq<AlertRule>>, queried: seq<string>)

  /** `index` is the UID map of the stored group rules. */
  ghost predicate IndexSound(reader: RuleReader, groupKey: GroupKey, index: map<string, AlertRule>) {
    && index.Keys == UidsOf(RulesInGroup(reader.rules, groupKey))
    && forall u :: u in index ==> index[u] in RulesInGroup(reader.rules, groupKey) && index[u].uid == u
  }

  /** Every affected group maps to all of its stored rules, and the target group is there when it has rules. */
  ghost predicate AffectedSound(reader: RuleReader, groupKey: GroupKey, affected: map<GroupKey, seq<AlertRule>>) {
    && (RulesInGroup(reader.rules, groupKey) != [] ==> groupKey in affected)
    && (forall k :: k in affected ==> affected[k] == RulesInGroup(reader.rules, k) && affected[k] != [])
  }

  /** Queries are issued for distinct submitted UIDs. */
  ghost predicate QueriesSound(done: seq<AlertRule>, queried: seq<string>) {
    && (forall a, b :: 0 <= a < b < |queried| ==> queried[a] != queried[b])
    && (forall u :: u in queried ==> u in SubmittedUids(done))
  }

  /** What holds of the scan after the submitted rules `done` were handled. */
  ghost predicate ScanSound(reader: RuleReader, groupKey: GroupKey, index: map<string, AlertRule>, done: seq<AlertRule>, s: Scan) {
    && s.remaining.Keys == index.Keys - SubmittedUids(done)
    && (forall u :: u in s.remaining ==> s.remaining[u] == index[u])
    && CacheSound(reader.rules, groupKey.orgId, s.loaded)
    && (forall u :: u in s.queried ==> u in s.loaded)
    && QueriesSound(done, s.queried)
    && AffectedSound(reader, groupKey, s.affected)
  }

  lemma QueriesGrow(done: seq<AlertRule>, rule: AlertRule, queried: seq<string>)
    requires QueriesSound(done, queried)
    ensures QueriesSound(done + [rule], queried)
  {
    SubmittedUidsSnoc(done, rule);
  }

  /** Issuing the query for a UID not yet cached keeps the queried UIDs distinct. */
  lemma QueriesAppend(done: seq<AlertRule>, rule: AlertRule, queried: seq<string>, loaded: map<string, AlertRule>)
    requires QueriesSound(done, queried)
    requires forall u :: u in queried ==> u in loaded
    requires rule.uid != "" && rule.uid !in loaded
    ensures QueriesSound(done + [rule], queried + [rule.uid])
  {
    SubmittedUidsSnoc(done, rule);
    var q := queried + [rule.uid];
    forall a, b | 0 <= a < b < |q| ensures q[a] != q[b] {
      if b == |queried| {
        assert q[a] in queried;
      } else {
        assert q[a] == queried[a] && q[b] == queried[b];
      }
    }
  }

  /** Handling a rule whose UID is not an unmatched group rule leaves the deletion candidates as they are. */
  lemma RemainingUnchanged(index: map<string, AlertRule>, done: seq<AlertRule>, rule: AlertRule, remaining: map<string, AlertRule>)
    requires remaining.Keys == index.Keys - SubmittedUids(done)
    requires rule.uid == "" || rule.uid !in remaining
    ensures remaining.Keys == index.Keys - SubmittedUids(done + [rule])
  {
    SubmittedUidsSnoc(done, rule);
  }

  /** Matching a rule of the group removes exactly its UID from the deletion candidates. */
  lemma RemainingMatched(index: map<string, AlertRule>, done: seq<AlertRule>, rule: AlertRule, remaining: map<string, AlertRule>)
    requires remaining.Keys == index.Keys - SubmittedUids(done)
    requires rule.uid != "" && rule.uid in remaining
    ensures (remaining - {rule.uid}).Keys == index.Keys - SubmittedUids(done + [rule])
  {
    SubmittedUidsSnoc(done, rule);
  }

  /** Recording the queried group keeps every affected group complete. */
  lemma AffectedAdd(reader: RuleReader, groupKey: GroupKey, affected: map<GroupKey, seq<AlertRule>>,
                    result: seq<AlertRule>, orgId: int, uid: string, existing: AlertRule)
    requires AffectedSound(reader, groupKey, affected)
    requires result == GroupOfUid(reader.rules, orgId, uid)
    requires existing in result
    ensures AffectedSound(reader, groupKey, affected[existing.GroupKeyOf() := result])
  {
    var f := FindByUid(reader.rules, orgId, uid);
    assert f.Some?;
    RulesInGroupMembers(reader.rules, f.value.GroupKeyOf());
    assert existing.GroupKeyOf() == f.value.GroupKeyOf();
  }

  /** What resolving one submitted rule gives: the stored rule it refers to or an error, and the bookkeeping after it. */
  datatype Resolved = Resolved(res: Result<Option<AlertRule>, DeltaError>, next: Scan)

  /**
   * Finding the stored rule a submitted rule refers to: none for an empty
   * UID; else the unmatched group rule with that UID (which stops being a
   * deletion candidate); else the cached rule; else the group query is
   * issued, its rules are cached and its group becomes affected.
   */
  function Resolve(reader: RuleReader, groupKey: GroupKey, rule: AlertRule, s: Scan): (r: Resolved)
    ensures r.res.Ok? ==> (r.res.value.None? <==> rule.uid == "")
    ensures r.res.Err? ==> r.res.error.GroupQueryFailed? || r.res.error.RuleNotFound?
    ensures r.next.queried == s.queried || r.next.queried == s.queried + [rule.uid]
  {
    if rule.uid == "" then Resolved(Ok(None), s)
    else if rule.uid in s.remaining then
      Resolved(Ok(Some(s.remaining[rule.uid])), s.(remaining := s.remaining - {rule.uid}))
    else if rule.uid in s.loaded then Resolved(Ok(Some(s.loaded[rule.uid])), s)
    else if reader.groupQueryFails then Resolved(Err(GroupQueryFailed), s)
    else
      var result := GroupOfUid(reader.rules, groupKey.orgId, rule.uid);
      var l := LoadInto(result, rule.uid, s.loaded);
      var next := s.(loaded := l.loaded, queried := s.queried + [rule.uid]);
      if l.existing.None? then Resolved(Err(RuleNotFound(rule.uid)), next)
      else Resolved(Ok(l.existing), next.(affected := s.affected[l.existing.value.GroupKeyOf() := result]))
  }

  /**
   * Resolving keeps the bookkeeping sound: a rule found is a stored rule of
   * the org with the submitted UID, the query fails only when the store
   * fails, and a UID found nowhere gives the rule-not-found error.
   */
  lemma ResolveSound(reader: RuleReader, groupKey: GroupKey, index: map<string, AlertRule>, done: seq<AlertRule>,
                     rule: AlertRule, s: Scan)
    requires IndexSound(reader, groupKey, index)
    requires ScanSound(reader, groupKey, index, done, s)
    ensures var r := Resolve(reader, groupKey, rule, s);
      && (r.res.Ok? ==> ScanSound(reader, groupKey, index, done + [rule], r.next))
      && (r.res.Ok? && r.res.value.Some? ==>
            r.res.value.value in reader.rules && r.res.value.value.uid == rule.uid && r.res.value.value.orgId == groupKey.orgId)
      && (r.res == Err(GroupQueryFailed) ==> reader.groupQueryFails)
      && (r.res.Err? && r.res.error.RuleNotFound? ==>
            r.res.error.uid == rule.uid && rule.uid != ""
            && forall x :: x in reader.rules ==> !(x.uid == rule.uid && x.orgId == groupKey.orgId))
      && QueriesSound(done + [rule], r.next.queried)
  {
    if rule.uid == "" {
      RemainingUnchanged(index, done, rule, s.remaining);
      QueriesGrow(done, rule, s.queried);
    } else if rule.uid in s.remaining {
      RulesInGroupMembers(reader.rules, groupKey);
      RemainingMatched(index, done, rule, s.remaining);
      QueriesGrow(done, rule, s.queried);
    } else {
      RemainingUnchanged(index, done, rule, s.remaining);
      if rule.uid in s.loaded || reader.groupQueryFails {
        QueriesGrow(done, rule, s.queried);
      } else {
        var result := GroupOfUid(reader.rules, groupKey.orgId, rule.uid);
        if FindByUid(reader.rules, groupKey.orgId, rule.uid).Some? {
          RulesInGroupMembers(reader.rules, FindByUid(reader.rules, groupKey.orgId, rule.uid).value.GroupKeyOf());
        }
        QueriesAppend(done, rule, s.queried, s.loaded);
        LoadIntoSound(reader.rules, groupKey.orgId, result, rule.uid, s.loaded);
        var l := LoadInto(result, rule.uid, s.loaded);
        if l.existing.Some? {
          AffectedAdd(reader, groupKey, s.affected, result, groupKey.orgId, rule.uid, l.existing.value);
        }
      }
    }
  }

  method ResolveExisting(reader: RuleReader, groupKey: GroupKey, rule: AlertRule, s: Scan)
      returns (res: Result<Option<AlertRule>, DeltaError>, next: Scan)
    ensures Resolved(res, next) == Resolve(reader, groupKey, rule, s)
  {
    next := s;
    if rule.uid == "" {
      return Ok(None), next;
    }
    if rule.uid in s.remaining {
      return Ok(Some(s.remaining[rule.uid])), next.(remaining := s.remaining - {rule.uid});
    }
    if rule.uid in s.loaded {
      return Ok(Some(s.loaded[rule.uid])), next;
    }
    if reader.groupQueryFails {
      return Err(GroupQueryFailed), next;
    }
    var result := GroupOfUid(reader.rules, groupKey.orgId, rule.uid);
    var existing, loaded := LoadGroup(result, rule.uid, s.loaded);
    next := next.(loaded := loaded, queried := s.queried + [rule.uid]);
    if existing.None? {
      return Err(RuleNotFound(rule.uid)), next;
    }
    next := next.(affected := s.affected[existing.value.GroupKeyOf() := result]);
    return Ok(existing), next;
  }

  /**
   * Which submitted rules fail to resolve. With a working store exactly
   * those whose UID no stored rule of the org has, with rule-not-found for
   * that UID. With a failing group query exactly those not found in the
   * unmatched group rules or the cache, with the group-query error, and
   * nothing is cached or queried.
   */
  lemma ResolveOutcome(reader: RuleReader, groupKey: GroupKey, index: map<string, AlertRule>, done: seq<AlertRule>,
                       rule: AlertRule, s: Scan)
    requires IndexSound(reader, groupKey, index)
    requires ScanSound(reader, groupKey, index, done, s)
    ensures var r := Resolve(reader, groupKey, rule, s);
      && (!reader.groupQueryFails ==>
            && (r.res.Ok? <==> rule.uid == "" || rule.uid in OrgUids(reader.rules, groupKey.orgId))
            && (r.res.Err? ==> r.res.error == RuleNotFound(rule.uid)))
      && (reader.groupQueryFails ==>
            && r.next.loaded == s.loaded && r.next.queried == s.queried
            && (r.res.Ok? <==> rule.uid == "" || rule.uid in s.remaining || rule.uid in s.loaded)
            && (r.res.Err? ==> r.res.error == GroupQueryFailed))
  {
    if rule.uid != "" {
      if rule.uid in s.remaining {
        RulesInGroupMembers(reader.rules, groupKey);
        assert s.remaining[rule.uid] in reader.rules;
      } else if rule.uid in s.loaded {
        assert s.loaded[rule.uid] in reader.rules;
      } else if !reader.groupQueryFails {
        var result := GroupOfUid(reader.rules, groupKey.orgId, rule.uid);
        var f := FindByUid(reader.rules, groupKey.orgId, rule.uid);
        if f.Some? {
          RulesInGroupMembers(reader.rules, f.value.GroupKeyOf());
          LoadIntoSound(reader.rules, groupKey.orgId, result, rule.uid, s.loaded);
          assert rule.uid in OrgUids(reader.rules, groupKey.orgId);
        } else {
          assert rule.uid !in OrgUids(reader.rules, groupKey.orgId);
        }
      }
    }
  }

  /**
   * The group query is never issued for a UID already cached by an earlier
   * query, nor for a UID of the group unless it was submitted before; and
   * every successful query leaves its rules cached and the group of the
   * rule it looked up affected.
   */
  ghost predicate QueriesFresh(reader: RuleReader, groupKey: GroupKey, done: seq<AlertRule>, queried: seq<string>) {
    && (forall a, b :: 0 <= a < b < |queried| ==> queried[b] !in UidsOf(GroupOfUid(reader.rules, groupKey.orgId, queried[a])))
    && (forall u :: u in queried && u in UidsOf(RulesInGroup(reader.rules, groupKey)) ==> Occurrences(done, u) >= 2)
  }

  ghost predicate QueriedLoaded(reader: RuleReader, groupKey: GroupKey, s: Scan) {
    forall u :: u in s.queried ==>
      && UidsOf(GroupOfUid(reader.rules, groupKey.orgId, u)) <= s.loaded.Keys
      && FindByUid(reader.rules, groupKey.orgId, u).Some?
      && FindByUid(reader.rules, groupKey.orgId, u).value.GroupKeyOf() in s.affected
  }

  lemma OccurrencesSnoc(done: seq<AlertRule>, rule: AlertRule, uid: string)
    ensures Occurrences(done + [rule], uid) == Occurrences(done, uid) + (if rule.uid == uid then 1 else 0)
  {
    assert (done + [rule])[..|done|] == done;
  }

  /** Resolving one more rule keeps the queries fresh: a new query is for a UID not cached, and for a group UID only on its repeat. */
  lemma ResolveQueriesFresh(reader: RuleReader, groupKey: GroupKey, index: map<string, AlertRule>, done: seq<AlertRule>,
                            rule: AlertRule, s: Scan)
    requires IndexSound(reader, groupKey, index)
    requires ScanSound(reader, groupKey, index, done, s)
    requires QueriesFresh(reader, groupKey, done, s.queried)
    requires QueriedLoaded(reader, groupKey, s)
    ensures QueriesFresh(reader, groupKey, done + [rule], Resolve(reader, groupKey, rule, s).next.queried)
  {
    var a := done + [rule];
    var r := Resolve(reader, groupKey, rule, s);
    var q := r.next.queried;
    var group := UidsOf(RulesInGroup(reader.rules, groupKey));
    forall v | v in q && v in group
      ensures Occurrences(a, v) >= 2
    {
      OccurrencesSnoc(done, rule, v);
      if v !in s.queried {
        assert v == rule.uid && v !in s.remaining && v in index;
        OccurrencesPositive(done, v);
      }
    }
    if q != s.queried {
      var u := rule.uid;
      assert u !in s.loaded && q == s.queried + [u];
      forall x, y | 0 <= x < y < |q|
        ensures q[y] !in UidsOf(GroupOfUid(reader.rules, groupKey.orgId, q[x]))
      {
        assert q[x] == s.queried[x];
        if y < |s.queried| {
          assert q[y] == s.queried[y];
        }
      }
    }
  }

  /** A successful resolution leaves every queried rule's group cached and affected. */
  lemma ResolveQueriedLoaded(reader: RuleReader, groupKey: GroupKey, index: map<string, AlertRule>, done: seq<AlertRule>,
                             rule: AlertRule, s: Scan)
    requires QueriedLoaded(reader, groupKey, s)
    requires Resolve(reader, groupKey, rule, s).res.Ok?
    ensures QueriedLoaded(reader, groupKey, Resolve(reader, groupKey, rule, s).next)
  {
    var r := Resolve(reader, groupKey, rule, s);
    if r.next.queried != s.queried {
      var u := rule.uid;
      var result := GroupOfUid(reader.rules, groupKey.orgId, u);
      var l := LoadInto(result, u, s.loaded);
      LoadIntoKeys(result, u, s.loaded);
      var f := FindByUid(reader.rules, groupKey.orgId, u);
      RulesInGroupMembers(reader.rules, f.value.GroupKeyOf());
      assert l.existing.value.GroupKeyOf() == f.value.GroupKeyOf();
      forall v | v in r.next.queried
        ensures UidsOf(GroupOfUid(reader.rules, groupKey.orgId, v)) <= r.next.loaded.Keys
        ensures FindByUid(reader.rules, groupKey.orgId, v).Some?
        ensures FindByUid(reader.rules, groupKey.orgId, v).value.GroupKeyOf() in r.next.affected
      {
        if v != u {
          assert v in s.queried;
        }
      }
    }
  }

  /** The facts about the update list that the result promises. */
  ghost predicate UpdatesSound(reader: RuleReader, submitted: seq<AlertRule>,
                               patch: (AlertRule, AlertRule) -> AlertRule, diff: (AlertRule, AlertRule, seq<string>) -> seq<string>,
                               toUpdate: seq<RuleDelta>)
  {
    forall d :: d in toUpdate ==>
      && d.diff != [] && d.diff == diff(d.existing, d.updated, AlertRuleFieldsToIgnoreInDiff)
      && d.existing in reader.rules
      && exists j :: 0 <= j < |submitted| && submitted[j].uid != "" && submitted[j].uid == d.existing.uid
                     && d.updated == patch(d.existing, submitted[j])
  }

  /** A submitted rule that yields no update keeps the update list sound for the longer submission. */
  lemma UpdatesSoundSnoc(reader: RuleReader, done: seq<AlertRule>, rule: AlertRule,
                         patch: (AlertRule, AlertRule) -> AlertRule, diff: (AlertRule, AlertRule, seq<string>) -> seq<string>,
                         toUpdate: seq<RuleDelta>)
    requires UpdatesSound(reader, done, patch, diff, toUpdate)
    ensures UpdatesSound(reader, done + [rule], patch, diff, toUpdate)
  {
    var a := done + [rule];
    forall d | d in toUpdate
      ensures exists j :: 0 <= j < |a| && a[j].uid != "" && a[j].uid == d.existing.uid && d.updated == patch(d.existing, a[j])
    {
      var j :| 0 <= j < |done| && done[j].uid != "" && done[j].uid == d.existing.uid && d.updated == patch(d.existing, done[j]);
      assert a[j] == done[j];
    }
  }

  /** A matched submitted rule with a non-empty diff adds its own update. */
  lemma UpdatesSoundAppend(reader: RuleReader, done: seq<AlertRule>, rule: AlertRule,
                           patch: (AlertRule, AlertRule) -> AlertRule, diff: (AlertRule, AlertRule, seq<string>) -> seq<string>,
                           toUpdate: seq<RuleDelta>, found: AlertRule)
    requires UpdatesSound(reader, done, patch, diff, toUpdate)
    requires found in reader.rules && rule.uid != "" && rule.uid == found.uid
    requires diff(found, patch(found, rule), AlertRuleFieldsToIgnoreInDiff) != []
    ensures UpdatesSound(reader, done + [rule], patch, diff,
                         toUpdate + [RuleDelta(found, patch(found, rule), diff(found, patch(found, rule), AlertRuleFieldsToIgnoreInDiff))])
  {
    UpdatesSoundSnoc(reader, done, rule, patch, diff, toUpdate);
    assert (done + [rule])[|done|] == rule;
  }

  /** The state of the scan over the submitted rules: the bookkeeping, the lists built so far, and the error that stopped it. */
  datatype Progress = Progress(scan: Scan, toAdd: seq<AlertRule>, toUpdate: seq<RuleDelta>, failed: Option<DeltaError>)

  /**
   * One iteration: a rule with no existing counterpart is added; a matched
   * rule is patched from the stored one and becomes an update when the diff
   * is not empty. Once an error occurred nothing more happens.
   */
  function HandleRule(reader: RuleReader, groupKey: GroupKey,
                      patch: (AlertRule, AlertRule) -> AlertRule, diff: (AlertRule, AlertRule, seq<string>) -> seq<string>,
                      p: Progress, rule: AlertRule): (q: Progress)
    ensures p.failed.Some? ==> q == p
    ensures p.failed.None? && q.failed.None? ==>
      |q.toAdd| + |q.toUpdate| <= |p.toAdd| + |p.toUpdate| + 1 && (rule.uid == "" <==> q.toAdd == p.toAdd + [rule])
    ensures p.failed.None? && q.failed.None? && rule.uid != "" ==>
      && q.toAdd == p.toAdd
      && (q.toUpdate == p.toUpdate ||
          (|q.toUpdate| == |p.toUpdate| + 1 && q.toUpdate[..|p.toUpdate|] == p.toUpdate
           && var u := q.toUpdate[|p.toUpdate|];
              u.updated == patch(u.existing, rule) && u.diff == diff(u.existing, u.updated, AlertRuleFieldsToIgnoreInDiff) && u.diff != []))
    ensures p.failed.None? && rule.uid == "" ==> q.failed.None? && q.toUpdate == p.toUpdate
  {
    if p.failed.Some? then p
    else
      var r := Resolve(reader, groupKey, rule, p.scan);
      if r.res.Err? then p.(scan := r.next, failed := Some(r.res.error))
      else if r.res.value.None? then Progress(r.next, p.toAdd + [rule], p.toUpdate, None)
      else
        var found := r.res.value.value;
        var patched := patch(found, rule);
        var d := diff(found, patched, AlertRuleFieldsToIgnoreInDiff);
        Progress(r.next, p.toAdd, if d != [] then p.toUpdate + [RuleDelta(found, patched, d)] else p.toUpdate, None)
  }

  /** The loop over the submitted rules `done`, from `start`. */
  function Scanned(reader: RuleReader, groupKey: GroupKey,
                   patch: (AlertRule, AlertRule) -> AlertRule, diff: (AlertRule, AlertRule, seq<string>) -> seq<string>,
                   start: Progress, done: seq<AlertRule>): (p: Progress)
    decreases |done|
  {
    if done == [] then start
    else HandleRule(reader, groupKey, patch, diff, Scanned(reader, groupKey, patch, diff, start, done[..|done| - 1]), done[|done| - 1])
  }

  /** The state before the loop: the group's rules indexed by UID, an empty cache, and the group affected when it has rules. */
  function Start(reader: RuleReader, groupKey: GroupKey): (p: Progress)
    ensures p.failed.None? && p.toAdd == [] && p.toUpdate == [] && p.scan.queried == []
    ensures groupKey in p.scan.affected <==> RulesInGroup(reader.rules, groupKey) != []
  {
    var existing := RulesInGroup(reader.rules, groupKey);
    Progress(Scan(UidIndex(existing), map[], if |existing| > 0 then map[groupKey := existing] else map[], []), [], [], None)
  }

  /** The first error ends the scan: later rules change nothing. */
  lemma {:induction false} FailedPersists(reader: RuleReader, groupKey: GroupKey,
                                          patch: (AlertRule, AlertRule) -> AlertRule, diff: (AlertRule, AlertRule, seq<string>) -> seq<string>,
                                          start: Progress, submitted: seq<AlertRule>, n: nat)
    requires n <= |submitted|
    requires Scanned(reader, groupKey, patch, diff, start, submitted[..n]).failed.Some?
    ensures Scanned(reader, groupKey, patch, diff, start, submitted) == Scanned(reader, groupKey, patch, diff, start, submitted[..n])
    decreases |submitted|
  {
    if n == |submitted| {
      assert submitted[..n] == submitted;
    } else {
      var init := submitted[..|submitted| - 1];
      assert init[..n] == submitted[..n];
      FailedPersists(reader, groupKey, patch, diff, start, init, n);
    }
  }

  /** What holds of the scan after the submitted rules `done`. */
  ghost predicate ProgressSound(reader: RuleReader, groupKey: GroupKey, index: map<string, AlertRule>,
                                patch: (AlertRule, AlertRule) -> AlertRule, diff: (AlertRule, AlertRule, seq<string>) -> seq<string>,
                                done: seq<AlertRule>, p: Progress)
  {
    && QueriesSound(done, p.scan.queried)
    && (p.failed.None? ==>
          && ScanSound(reader, groupKey, index, done, p.scan)
          && p.toAdd == WithoutUid(done)
          && |p.toAdd| + |p.toUpdate| <= |done|
          && SubmittedUids(done) <= OrgUids(reader.rules, groupKey.orgId)
          && UpdatesSound(reader, done, patch, diff, p.toUpdate))
    && (p.failed.Some? ==>
          && (p.failed.value.GroupQueryFailed? ==> reader.groupQueryFails)
          && (p.failed.value.GroupQueryFailed? || p.failed.value.RuleNotFound?)
          && (p.failed.value.RuleNotFound? ==>
                p.failed.value.uid in SubmittedUids(done)
                && forall x :: x in reader.rules ==> !(x.uid == p.failed.value.uid && x.orgId == groupKey.orgId)))
  }

  lemma HandleRuleSound(reader: RuleReader, groupKey: GroupKey, index: map<string, AlertRule>,
                        patch: (AlertRule, AlertRule) -> AlertRule, diff: (AlertRule, AlertRule, seq<string>) -> seq<string>,
                        done: seq<AlertRule>, p: Progress, rule: AlertRule)
    requires IndexSound(reader, groupKey, index)
    requires ProgressSound(reader, groupKey, index, patch, diff, done, p)
    ensures ProgressSound(reader, groupKey, index, patch, diff, done + [rule], HandleRule(reader, groupKey, patch, diff, p, rule))
  {
    SubmittedUidsSnoc(done, rule);
    if p.failed.Some? {
      QueriesGrow(done, rule, p.scan.queried);
    } else {
      ResolveSound(reader, groupKey, index, done, rule, p.scan);
      var r := Resolve(reader, groupKey, rule, p.scan);
      if r.res.Ok? {
        assert (done + [rule])[..|done|] == done;
        assert WithoutUid(done + [rule]) == WithoutUid(done) + (if rule.uid == "" then [rule] else []);
        if r.res.value.None? {
          UpdatesSoundSnoc(reader, done, rule, patch, diff, p.toUpdate);
        } else {
          var found := r.res.value.value;
          assert rule.uid in OrgUids(reader.rules, groupKey.orgId);
          if diff(found, patch(found, rule), AlertRuleFieldsToIgnoreInDiff) != [] {
            UpdatesSoundAppend(reader, done, rule, patch, diff, p.toUpdate, found);
          } else {
            UpdatesSoundSnoc(reader, done, rule, patch, diff, p.toUpdate);
          }
        }
      }
    }
  }

  /**
   * What makes the scan complete, beside sound: the queries are fresh; while
   * no error occurred every queried rule is cached with its group affected
   * and, under the rule table's unique key, the update list is exactly the
   * one the submission calls for. With a working store the error, if any,
   * is rule-not-found for the first unknown UID; with a failing group
   * query, it is the group-query error exactly when some submitted UID is
   * not a still unmatched rule of the group.
   */
  ghost predicate ProgressComplete(reader: RuleReader, groupKey: GroupKey,
                                   patch: (AlertRule, AlertRule) -> AlertRule, diff: (AlertRule, AlertRule, seq<string>) -> seq<string>,
                                   done: seq<AlertRule>, p: Progress)
  {
    && QueriesFresh(reader, groupKey, done, p.scan.queried)
    && (p.failed.None? ==> QueriedLoaded(reader, groupKey, p.scan))
    && (p.failed.None? && UidsUniqueInOrg(reader.rules) ==>
          p.toUpdate == ExpectedUpdates(reader.rules, groupKey.orgId, done, patch, diff))
    && (!reader.groupQueryFails ==>
          p.failed == (match FirstUnknownUid(reader.rules, groupKey.orgId, done)
                       case None => None
                       case Some(u) => Some(RuleNotFound(u))))
    && (reader.groupQueryFails ==>
          && p.scan.loaded == map[] && p.scan.queried == []
          && (p.failed.None? <==> MatchesGroupOnce(done, UidsOf(RulesInGroup(reader.rules, groupKey))))
          && (p.failed.Some? ==> p.failed == Some(GroupQueryFailed)))
  }

  lemma HandleRuleComplete(reader: RuleReader, groupKey: GroupKey, index: map<string, AlertRule>,
                           patch: (AlertRule, AlertRule) -> AlertRule, diff: (AlertRule, AlertRule, seq<string>) -> seq<string>,
                           done: seq<AlertRule>, p: Progress, rule: AlertRule)
    requires IndexSound(reader, groupKey, index)
    requires ProgressSound(reader, groupKey, index, patch, diff, done, p)
    requires ProgressComplete(reader, groupKey, patch, diff, done, p)
    ensures ProgressComplete(reader, groupKey, patch, diff, done + [rule], HandleRule(reader, groupKey, patch, diff, p, rule))
  {
    var a := done + [rule];
    assert a[..|done|] == done;
    if p.failed.Some? {
      assert forall u :: u in p.scan.queried ==> Occurrences(a, u) >= Occurrences(done, u);
    } else {
      ResolveOutcome(reader, groupKey, index, done, rule, p.scan);
      ResolveQueriesFresh(reader, groupKey, index, done, rule, p.scan);
      var r := Resolve(reader, groupKey, rule, p.scan);
      if r.res.Ok? {
        ResolveQueriedLoaded(reader, groupKey, index, done, rule, p.scan);
      }
      if r.res.Ok? && r.res.value.Some? && UidsUniqueInOrg(reader.rules) {
        ResolveSound(reader, groupKey, index, done, rule, p.scan);
        UniqueFind(reader.rules, groupKey.orgId, r.res.value.value);
      }
    }
  }

  /** Every prefix of the scan from the start state is sound. */
  lemma {:induction false} ScannedSound(reader: RuleReader, groupKey: GroupKey,
                                        patch: (AlertRule, AlertRule) -> AlertRule, diff: (AlertRule, AlertRule, seq<string>) -> seq<string>,
                                        done: seq<AlertRule>)
    ensures ProgressSound(reader, groupKey, UidIndex(RulesInGroup(reader.rules, groupKey)), patch, diff, done,
                          Scanned(reader, groupKey, patch, diff, Start(reader, groupKey), done))
    decreases |done|
  {
    var index := UidIndex(RulesInGroup(reader.rules, groupKey));
    UidIndexSound(RulesInGroup(reader.rules, groupKey));
    if done == [] {
      assert SubmittedUids(done) == {};
      assert WithoutUid(done) == [];
    } else {
      var init, rule := done[..|done| - 1], done[|done| - 1];
      ScannedSound(reader, groupKey, patch, diff, init);
      assert done == init + [rule];
      HandleRuleSound(reader, groupKey, index, patch, diff, init, Scanned(reader, groupKey, patch, diff, Start(reader, groupKey), init), rule);
    }
  }

  /** Every prefix of the scan from the start state is complete. */
  lemma {:induction false} ScannedComplete(reader: RuleReader, groupKey: GroupKey,
                                           patch: (AlertRule, AlertRule) -> AlertRule, diff: (AlertRule, AlertRule, seq<string>) -> seq<string>,
                                           done: seq<AlertRule>)
    ensures ProgressComplete(reader, groupKey, patch, diff, done, Scanned(reader, groupKey, patch, diff, Start(reader, groupKey), done))
    decreases |done|
  {
    if done != [] {
      var index := UidIndex(RulesInGroup(reader.rules, groupKey));
      UidIndexSound(RulesInGroup(reader.rules, groupKey));
      var init, rule := done[..|done| - 1], done[|done| - 1];
      ScannedSound(reader, groupKey, patch, diff, init);
      ScannedComplete(reader, groupKey, patch, diff, init);
      assert done == init + [rule];
      HandleRuleComplete(reader, groupKey, index, patch, diff, init, Scanned(reader, groupKey, patch, diff, Start(reader, groupKey), init), rule);
    }
  }

  /** The deletion candidates left at the end are the unmatched group rules, one per UID. */
  lemma DeleteSetIsUnmatched(reader: RuleReader, groupKey: GroupKey, index: map<string, AlertRule>, submitted: seq<AlertRule>,
                             remaining: map<string, AlertRule>)
    requires IndexSound(reader, groupKey, index)
    requires remaining.Keys == index.Keys - SubmittedUids(submitted)
    requires forall u :: u in remaining ==> remaining[u] == index[u]
    ensures forall x :: x in remaining.Values ==> x in RulesInGroup(reader.rules, groupKey) && x.uid !in SubmittedUids(submitted)
    ensures (set x | x in remaining.Values :: x.uid) == UidsOf(RulesInGroup(reader.rules, groupKey)) - SubmittedUids(submitted)
    ensures forall x, y :: x in remaining.Values && y in remaining.Values && x.uid == y.uid ==> x == y
  {
    forall x | x in remaining.Values
      ensures x in RulesInGroup(reader.rules, groupKey) && x.uid !in SubmittedUids(submitted) && x == remaining[x.uid]
    {
      var u :| u in remaining && remaining[u] == x;
    }
    forall u | u in UidsOf(RulesInGroup(reader.rules, groupKey)) - SubmittedUids(submitted)
      ensures u in (set x | x in remaining.Values :: x.uid)
    {
      assert remaining[u] in remaining.Values;
    }
  }

  /**
   * What a computed delta promises: it is for the group, adds exactly the
   * submitted rules without UID, updates only from matched submitted rules,
   * deletes exactly the unmatched stored rules of the group (one per UID),
   * records every affected group with all its stored rules, and every
   * submitted UID names a stored rule of the org. Under the rule table's
   * unique key the update list is exactly one update per submitted rule
   * that changes its stored rule, in submission order.
   */
  ghost predicate DeltaSound(reader: RuleReader, groupKey: GroupKey, submitted: seq<AlertRule>,
                             patch: (AlertRule, AlertRule) -> AlertRule, diff: (AlertRule, AlertRule, seq<string>) -> seq<string>,
                             d: GroupDelta)
  {
    && d.groupKey == groupKey
    && d.toAdd == WithoutUid(submitted)
    && |d.toAdd| + |d.toUpdate| <= |submitted|
    && UpdatesSound(reader, submitted, patch, diff, d.toUpdate)
    && (forall x :: x in d.toDelete ==> x in RulesInGroup(reader.rules, groupKey) && x.uid !in SubmittedUids(submitted))
    && (set x | x in d.toDelete :: x.uid) == UidsOf(RulesInGroup(reader.rules, groupKey)) - SubmittedUids(submitted)
    && (forall x, y :: x in d.toDelete && y in d.toDelete && x.uid == y.uid ==> x == y)
    && AffectedSound(reader, groupKey, d.affectedGroups)
    && (groupKey in d.affectedGroups <==> RulesInGroup(reader.rules, groupKey) != [])
    && SubmittedUids(submitted) <= OrgUids(reader.rules, groupKey.orgId)
    && (UidsUniqueInOrg(reader.rules) ==> d.toUpdate == ExpectedUpdates(reader.rules, groupKey.orgId, submitted, patch, diff))
  }

  /**
   * CalculateChanges as a function of its inputs: the delta or the error,
   * and the UIDs for which the group query was issued, in order.
   */
  function Changes(reader: RuleReader, groupKey: GroupKey, submitted: seq<AlertRule>,
                   patch: (AlertRule, AlertRule) -> AlertRule, diff: (AlertRule, AlertRule, seq<string>) -> seq<string>)
    : (c: (Result<GroupDelta, DeltaError>, seq<string>))
    ensures reader.listFails ==> c == (Err(ListFailed), [])
  {
    if reader.listFails then (Err(ListFailed), [])
    else
      var p := Scanned(reader, groupKey, patch, diff, Start(reader, groupKey), submitted);
      if p.failed.Some? then (Err(p.failed.value), p.scan.queried)
      else (Ok(GroupDelta(groupKey, p.scan.affected, p.toAdd, p.toUpdate, p.scan.remaining.Values)), p.scan.queried)
  }

  /**
   * The list failure is reported as such and only then; the group query
   * failure only when the store fails; rule-not-found names a submitted UID
   * no stored rule of the org has; no UID is queried twice; and a delta is
   * sound.
   */
  lemma ChangesSound(reader: RuleReader, groupKey: GroupKey, submitted: seq<AlertRule>,
                     patch: (AlertRule, AlertRule) -> AlertRule, diff: (AlertRule, AlertRule, seq<string>) -> seq<string>)
    ensures var (r, queried) := Changes(reader, groupKey, submitted, patch, diff);
      && (r == Err(ListFailed) <==> reader.listFails)
      && (r == Err(GroupQueryFailed) ==> reader.groupQueryFails)
      && (r.Err? && r.error.RuleNotFound? ==>
            r.error.uid in SubmittedUids(submitted)
            && forall x :: x in reader.rules ==> !(x.uid == r.error.uid && x.orgId == groupKey.orgId))
      && QueriesSound(submitted, queried)
      && (r.Ok? ==> DeltaSound(reader, groupKey, submitted, patch, diff, r.value))
  {
    if !reader.listFails {
      var index := UidIndex(RulesInGroup(reader.rules, groupKey));
      UidIndexSound(RulesInGroup(reader.rules, groupKey));
      ScannedSound(reader, groupKey, patch, diff, submitted);
      var p := Scanned(reader, groupKey, patch, diff, Start(reader, groupKey), submitted);
      if p.failed.None? {
        DeleteSetIsUnmatched(reader, groupKey, index, submitted, p.scan.remaining);
        ScannedComplete(reader, groupKey, patch, diff, submitted);
      }
    }
  }

  /**
   * The other direction of the error cases, and the queries: with a working
   * store the result is an error exactly when some submitted UID names no
   * stored rule of the org, and then it is rule-not-found for the first
   * such UID; with a failing group query it is the group-query error
   * exactly when a submitted UID is not an unmatched rule of the group (or
   * repeats one), and nothing is queried. No query is issued for a UID
   * cached by an earlier query, or for a group UID on its first occurrence,
   * and every queried rule's group is affected in the delta.
   */
  lemma ChangesComplete(reader: RuleReader, groupKey: GroupKey, submitted: seq<AlertRule>,
                        patch: (AlertRule, AlertRule) -> AlertRule, diff: (AlertRule, AlertRule, seq<string>) -> seq<string>)
    ensures var (r, queried) := Changes(reader, groupKey, submitted, patch, diff);
      && QueriesFresh(reader, groupKey, submitted, queried)
      && (r.Ok? ==> forall u :: u in queried ==>
            FindByUid(reader.rules, groupKey.orgId, u).Some?
            && FindByUid(reader.rules, groupKey.orgId, u).value.GroupKeyOf() in r.value.affectedGroups)
      && (!reader.listFails && !reader.groupQueryFails ==>
            && (r.Ok? <==> SubmittedUids(submitted) <= OrgUids(reader.rules, groupKey.orgId))
            && (r.Err? ==> r.error.RuleNotFound? && FirstUnknownUid(reader.rules, groupKey.orgId, submitted) == Some(r.error.uid)))
      && (!reader.listFails && reader.groupQueryFails ==>
            && queried == []
            && (r.Ok? <==> MatchesGroupOnce(submitted, UidsOf(RulesInGroup(reader.rules, groupKey))))
            && (r.Err? ==> r == Err(GroupQueryFailed)))
  {
    if !reader.listFails {
      ScannedComplete(reader, groupKey, patch, diff, submitted);
      FirstUnknownUidNone(reader.rules, groupKey.orgId, submitted);
    }
  }

  /** One more submitted rule is one more HandleRule. */
  lemma ScannedStep(reader: RuleReader, groupKey: GroupKey,
                    patch: (AlertRule, AlertRule) -> AlertRule, diff: (AlertRule, AlertRule, seq<string>) -> seq<string>,
                    start: Progress, submitted: seq<AlertRule>, i: nat)
    requires i < |submitted|
    ensures Scanned(reader, groupKey, patch, diff, start, submitted[..i + 1])
         == HandleRule(reader, groupKey, patch, diff, Scanned(reader, groupKey, patch, diff, start, submitted[..i]), submitted[i])
  {
    assert submitted[..i + 1][..i] == submitted[..i];
  }

  /**
   * The body of CalculateChanges' loop for one submitted rule: resolve its
   * stored counterpart, then add it, or patch it and record an update when
   * the diff is not empty.
   */
  method HandleSubmitted(reader: RuleReader, groupKey: GroupKey,
                         patch: (AlertRule, AlertRule) -> AlertRule, diff: (AlertRule, AlertRule, seq<string>) -> seq<string>,
                         rule: AlertRule, scan: Scan, toAdd: seq<AlertRule>, toUpdate: seq<RuleDelta>)
      returns (failed: Option<DeltaError>, scan': Scan, toAdd': seq<AlertRule>, toUpdate': seq<RuleDelta>)
    ensures Progress(scan', toAdd', toUpdate', failed) == HandleRule(reader, groupKey, patch, diff, Progress(scan, toAdd, toUpdate, None), rule)
  {
    var existing;
    existing, scan' := ResolveExisting(reader, groupKey, rule, scan);
    toAdd', toUpdate' := toAdd, toUpdate;
    if existing.Err? {
      return Some(existing.error), scan', toAdd', toUpdate';
    }
    failed := None;
    if existing.value.None? {
      toAdd' := toAdd + [rule];
    } else {
      var found := existing.value.value;
      var patched := patch(found, rule);
      var d := diff(found, patched, AlertRuleFieldsToIgnoreInDiff);
      if d != [] {
        toUpdate' := toUpdate + [RuleDelta(found, patched, d)];
      }
    }
  }

  /**
   * CalculateChanges. `patch` stands for PatchPartialAlertRule (the submitted
   * rule completed from the stored one) and `diff` for AlertRule.Diff; both
   * are defined elsewhere. Besides the result, the UIDs for which the group
   * query was issued are returned in order.
   */
  method CalculateChanges(reader: RuleReader, groupKey: GroupKey, submitted: seq<AlertRule>,
                          patch: (AlertRule, AlertRule) -> AlertRule, diff: (AlertRule, AlertRule, seq<string>) -> seq<string>)
      returns (r: Result<GroupDelta, DeltaError>, queried: seq<string>)
    ensures (r, queried) == Changes(reader, groupKey, submitted, patch, diff)
  {
    queried := [];
    if reader.listFails {
      return Err(ListFailed), queried;
    }
    var existingGroupRules := RulesInGroup(reader.rules, groupKey);
    var affected: map<GroupKey, seq<AlertRule>> := map[];
    if |existingGroupRules| > 0 {
      affected := affected[groupKey := existingGroupRules];
    }
    var remaining := IndexByUid(existingGroupRules);
    var p := ScanSubmitted(reader, groupKey, patch, diff, Progress(Scan(remaining, map[], affected, []), [], [], None), submitted);
    if p.failed.Some? {
      return Err(p.failed.value), p.scan.queried;
    }
    return Ok(GroupDelta(groupKey, p.scan.affected, p.toAdd, p.toUpdate, p.scan.remaining.Values)), p.scan.queried;
  }

  /** The loop of CalculateChanges over the submitted rules, stopping at the first error. */
  method ScanSubmitted(reader: RuleReader, groupKey: GroupKey,
                       patch: (AlertRule, AlertRule) -> AlertRule, diff: (AlertRule, AlertRule, seq<string>) -> seq<string>,
                       start: Progress, submitted: seq<AlertRule>)
      returns (p: Progress)
    requires start.failed.None?
    ensures p == Scanned(reader, groupKey, patch, diff, start, submitted)
  {
    var scan, toAdd, toUpdate := start.scan, start.toAdd, start.toUpdate;
    var i := 0;
    while i < |submitted|
      invariant 0 <= i <= |submitted|
      invariant Scanned(reader, groupKey, patch, diff, start, submitted[..i]) == Progress(scan, toAdd, toUpdate, None)
    {
      ScannedStep(reader, groupKey, patch, diff, start, submitted, i);
      var failed;
      failed, scan, toAdd, toUpdate := HandleSubmitted(reader, groupKey, patch, diff, submitted[i], scan, toAdd, toUpdate);
      if failed.Some? {
        FailedPersists(reader, groupKey, patch, diff, start, submitted, i + 1);
        return Progress(scan, toAdd, toUpdate, failed);
      }
      i := i + 1;
    }
    assert submitted[..i] == submitted;
    return Progress(scan, toAdd, toUpdate, None);
  }
}
