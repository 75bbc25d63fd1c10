/**
 * The correlation store: correlations between data sources kept in one
 * table, created, read, updated and deleted on behalf of a source data
 * source, with checks on the data sources involved and a fixed order in
 * which those checks report errors.
 */
module Correlations {
  import opened Wrappers

  datatype Correlation = Correlation(id: int, uid: string, sourceUid: string, targetUid: string, labelText: string, description: string)

  datatype CorrelationDTO = CorrelationDTO(uid: string, sourceUid: string, targetUid: string, labelText: string, description: string)

  datatype DataSource = DataSource(orgId: int, uid: string, readOnly: bool)

  datatype CorrelationError =
    | SourceDataSourceReadOnly
    | SourceDataSourceDoesNotExist
    | TargetDataSourceDoesNotExist
    | CorrelationNotFound

  datatype CreateCommand = CreateCommand(sourceUid: string, orgId: int, skipReadOnlyCheck: bool, targetUid: string, labelText: string, description: string)
  datatype DeleteCommand = DeleteCommand(uid: string, sourceUid: string, orgId: int)
  datatype UpdateCommand = UpdateCommand(uid: string, sourceUid: string, orgId: int, labelText: string, description: string)
  datatype GetQuery = GetQuery(uid: string, sourceUid: string, orgId: int)

  const EmptyDTO: CorrelationDTO := CorrelationDTO("", "", "", "", "")

  function ToDTO(c: Correlation): (d: CorrelationDTO)
    ensures d.uid == c.uid && d.sourceUid == c.sourceUid && d.targetUid == c.targetUid
    ensures d.labelText == c.labelText && d.description == c.description
  {
    CorrelationDTO(c.uid, c.sourceUid, c.targetUid, c.labelText, c.description)
  }

  function ToDTOs(rows: seq<Correlation>): (r: seq<CorrelationDTO>)
    ensures |r| == |rows|
    ensures forall i :: 0 <= i < |rows| ==> r[i] == ToDTO(rows[i])
  {
    seq(|rows|, i requires 0 <= i < |rows| => ToDTO(rows[i]))
  }

  // ---------------------------------------------------------------------------
  // Data source lookup

  /** GetDataSource by org and UID. */
  function FindDataSource(dataSources: seq<DataSource>, orgId: int, uid: string): (r: Option<DataSource>)
    ensures r.Some? ==> r.value in dataSources && r.value.orgId == orgId && r.value.uid == uid
    ensures r.None? <==> forall d :: d in dataSources ==> !(d.orgId == orgId && d.uid == uid)
  {
    if dataSources == [] then None
    else if dataSources[0].orgId == orgId && dataSources[0].uid == uid then Some(dataSources[0])
    else FindDataSource(dataSources[1..], orgId, uid)
  }

  /**
   * The check every write makes on the source data source: it must exist
   * and, unless the check is skipped, must not be read-only.
   */
  function SourceCheck(dataSources: seq<DataSource>, orgId: int, sourceUid: string, checkReadOnly: bool): (r: Option<CorrelationError>)
    ensures r == Some(SourceDataSourceDoesNotExist) <==> FindDataSource(dataSources, orgId, sourceUid).None?
    ensures r == Some(SourceDataSourceReadOnly) <==>
      FindDataSource(dataSources, orgId, sourceUid).Some? && checkReadOnly && FindDataSource(dataSources, orgId, sourceUid).value.readOnly
    ensures r.None? || r == Some(SourceDataSourceDoesNotExist) || r == Some(SourceDataSourceReadOnly)
  {
    match FindDataSource(dataSources, orgId, sourceUid)
    case None => Some(SourceDataSourceDoesNotExist)
    case Some(ds) => if checkReadOnly && ds.readOnly then Some(SourceDataSourceReadOnly) else None
  }

  // ---------------------------------------------------------------------------
  // Table operations

  predicate Selects(c: Correlation, uid: string, sourceUid: string) {
    c.uid == uid && c.sourceUid == sourceUid
  }

  function CountSelected(rows: seq<Correlation>, uid: string, sourceUid: string): (n: nat)
    ensures n == 0 <==> forall c :: c in rows ==> !Selects(c, uid, sourceUid)
  {
    if rows == [] then 0
    else (if Selects(rows[0], uid, sourceUid) then 1 else 0) + CountSelected(rows[1..], uid, sourceUid)
  }

  function FirstSelected(rows: seq<Correlation>, uid: string, sourceUid: string): (r: Option<Correlation>)
    ensures r.Some? ==> r.value in rows && Selects(r.value, uid, sourceUid)
    ensures r.None? <==> forall c :: c in rows ==> !Selects(c, uid, sourceUid)
  {
    if rows == [] then None
    else if Selects(rows[0], uid, sourceUid) then Some(rows[0])
    else FirstSelected(rows[1..], uid, sourceUid)
  }

  /** `DELETE ... WHERE uid AND source_uid`. */
  function DeleteSelected(rows: seq<Correlation>, uid: string, sourceUid: string): (r: seq<Correlation>)
    ensures forall c :: c in r <==> c in rows && !Selects(c, uid, sourceUid)
  {
    if rows == [] then []
    else (if Selects(rows[0], uid, sourceUid) then [] else [rows[0]]) + DeleteSelected(rows[1..], uid, sourceUid)
  }

  /** `UPDATE ... SET labelText, description WHERE uid AND source_uid`. */
  function UpdateSelected(rows: seq<Correlation>, uid: string, sourceUid: string, labelText: string, description: string): (r: seq<Correlation>)
    ensures |r| == |rows|
    ensures forall i :: 0 <= i < |rows| ==>
      r[i] == if Selects(rows[i], uid, sourceUid) then rows[i].(labelText := labelText, description := description) else rows[i]
  {
    seq(|rows|, i requires 0 <= i < |rows| =>
      if Selects(rows[i], uid, sourceUid) then rows[i].(labelText := labelText, description := description) else rows[i])
  }

  /** After the update, the first selected row is the old first selected row with the new labelText and description. */
  lemma {:induction false} FirstSelectedAfterUpdate(rows: seq<Correlation>, uid: string, sourceUid: string, labelText: string, description: string)
    ensures FirstSelected(UpdateSelected(rows, uid, sourceUid, labelText, description), uid, sourceUid)
      == if FirstSelected(rows, uid, sourceUid).None? then None
         else Some(FirstSelected(rows, uid, sourceUid).value.(labelText := labelText, description := description))
  {
    if rows != [] {
      var u := UpdateSelected(rows, uid, sourceUid, labelText, description);
      assert u[1..] == UpdateSelected(rows[1..], uid, sourceUid, labelText, description);
      FirstSelectedAfterUpdate(rows[1..], uid, sourceUid, labelText, description);
    }
  }

  /** The rows whose source is `sourceUid`, in table order. */
  function WithSource(rows: seq<Correlation>, sourceUid: string): (r: seq<Correlation>)
    ensures forall c :: c in r <==> c in rows && c.sourceUid == sourceUid
  {
    if rows == [] then []
    else (if rows[0].sourceUid == sourceUid then [rows[0]] else []) + WithSource(rows[1..], sourceUid)
  }

  function WithoutSource(rows: seq<Correlation>, sourceUid: string): (r: seq<Correlation>)
    ensures forall c :: c in r <==> c in rows && c.sourceUid != sourceUid
  {
    if rows == [] then []
    else (if rows[0].sourceUid == sourceUid then [] else [rows[0]]) + WithoutSource(rows[1..], sourceUid)
  }

  function WithoutTarget(rows: seq<Correlation>, targetUid: string): (r: seq<Correlation>)
    ensures forall c :: c in r <==> c in rows && c.targetUid != targetUid
  {
    if rows == [] then []
    else (if rows[0].targetUid == targetUid then [] else [rows[0]]) + WithoutTarget(rows[1..], targetUid)
  }

  /** The data sources of `orgId` a correlation's source UID joins with. */
  function JoinedSources(c: Correlation, dataSources: seq<DataSource>, orgId: int): (r: seq<DataSource>)
    ensures forall d :: d in r <==> d in dataSources && d.uid == c.sourceUid && d.orgId == orgId
  {
    if dataSources == [] then []
    else (if dataSources[0].uid == c.sourceUid && dataSources[0].orgId == orgId then [dataSources[0]] else [])
         + JoinedSources(c, dataSources[1..], orgId)
  }

  function Repeat(c: Correlation, n: nat): (r: seq<Correlation>)
    ensures |r| == n
    ensures forall x :: x in r <==> x == c && n > 0
  {
    if n == 0 then [] else [c] + Repeat(c, n - 1)
  }

  /** The correlation's source data source belongs to `orgId`. */
  ghost predicate SourceInOrg(c: Correlation, dataSources: seq<DataSource>, orgId: int) {
    exists d :: d in dataSources && d.uid == c.sourceUid && d.orgId == orgId
  }

  /**
   * `correlation JOIN data_source ON source_uid = data_source.uid WHERE
   * data_source.org_id = ?`: each correlation once per joining data source.
   */
  function Joined(rows: seq<Correlation>, dataSources: seq<DataSource>, orgId: int): (r: seq<Correlation>)
    ensures forall c :: c in r <==> c in rows && SourceInOrg(c, dataSources, orgId)
  {
    if rows == [] then []
    else
      var joins := JoinedSources(rows[0], dataSources, orgId);
      var head := Repeat(rows[0], |joins|);
      assert |joins| > 0 <==> SourceInOrg(rows[0], dataSources, orgId) by {
        if |joins| > 0 {
          assert joins[0] in joins;
        }
      }
      var tail := Joined(rows[1..], dataSources, orgId);
      assert forall c :: c in rows <==> c == rows[0] || c in rows[1..];
      head + tail
  }

  /** Every DTO of the join names a source data source of the organization. */
  lemma JoinedDTOsInOrg(rows: seq<Correlation>, dataSources: seq<DataSource>, orgId: int)
    ensures forall d :: d in ToDTOs(Joined(rows, dataSources, orgId)) ==>
      exists s :: s in dataSources && s.uid == d.sourceUid && s.orgId == orgId
  {
    var joined := Joined(rows, dataSources, orgId);
    var dtos := ToDTOs(joined);
    forall d | d in dtos ensures exists s :: s in dataSources && s.uid == d.sourceUid && s.orgId == orgId {
      var k :| 0 <= k < |dtos| && dtos[k] == d;
      assert joined[k] in joined;
      var s :| s in dataSources && s.uid == joined[k].sourceUid && s.orgId == orgId;
      assert d.sourceUid == s.uid;
    }
  }

  class CorrelationsService {
    var correlations: seq<Correlation>
    var nextId: int
    /** The data sources, owned by the data source service; this service only reads them. */
    var dataSources: seq<DataSource>

    constructor (dataSources: seq<DataSource>)
      ensures this.dataSources == dataSources && correlations == [] && nextId == 1
    {
      this.dataSources := dataSources;
      correlations := [];
      nextId := 1;
    }

    /**
     * createCorrelation: the source must exist and (unless skipped) not be
     * read-only, then the target must exist; only then is the row inserted
     * under `newUid`. Errors leave the table alone and return an empty DTO.
     */
    method CreateCorrelation(cmd: CreateCommand, newUid: string) returns (dto: CorrelationDTO, err: Option<CorrelationError>)
      modifies this`correlations, this`nextId
      ensures var source := SourceCheck(dataSources, cmd.orgId, cmd.sourceUid, !cmd.skipReadOnlyCheck);
        && (source.Some? ==> err == source)
        && (source.None? && FindDataSource(dataSources, cmd.orgId, cmd.targetUid).None? ==> err == Some(TargetDataSourceDoesNotExist))
        && (source.None? && FindDataSource(dataSources, cmd.orgId, cmd.targetUid).Some? ==> err == None)
      ensures err.Some? ==> dto == EmptyDTO && correlations == old(correlations) && nextId == old(nextId)
      ensures err.None? ==>
        && correlations == old(correlations) + [Correlation(old(nextId), newUid, cmd.sourceUid, cmd.targetUid, cmd.labelText, cmd.description)]
        && nextId == old(nextId) + 1
        && dto == CorrelationDTO(newUid, cmd.sourceUid, cmd.targetUid, cmd.labelText, cmd.description)
    {
      var correlation := Correlation(0, newUid, cmd.sourceUid, cmd.targetUid, cmd.labelText, cmd.description);
      var source := FindDataSource(dataSources, cmd.orgId, cmd.sourceUid);
      if source.None? {
        return EmptyDTO, Some(SourceDataSourceDoesNotExist);
      }
      if !cmd.skipReadOnlyCheck && source.value.readOnly {
        return EmptyDTO, Some(SourceDataSourceReadOnly);
      }
      if FindDataSource(dataSources, cmd.orgId, cmd.targetUid).None? {
        return EmptyDTO, Some(TargetDataSourceDoesNotExist);
      }
      correlation := correlation.(id := nextId);
      correlations := correlations + [correlation];
      nextId := nextId + 1;
      return ToDTO(correlation), None;
    }

    /**
     * deleteCorrelation: the source must exist and not be read-only; then
     * the rows with this UID and source are deleted, and deleting none is
     * CorrelationNotFound.
     */
    method DeleteCorrelation(cmd: DeleteCommand) returns (err: Option<CorrelationError>)
      modifies this`correlations
      ensures var source := SourceCheck(dataSources, cmd.orgId, cmd.sourceUid, true);
        && (source.Some? ==> err == source && correlations == old(correlations))
        && (source.None? && CountSelected(old(correlations), cmd.uid, cmd.sourceUid) == 0 ==>
              err == Some(CorrelationNotFound) && correlations == old(correlations))
        && (source.None? && CountSelected(old(correlations), cmd.uid, cmd.sourceUid) > 0 ==>
              err == None && correlations == DeleteSelected(old(correlations), cmd.uid, cmd.sourceUid))
    {
      var source := FindDataSource(dataSources, cmd.orgId, cmd.sourceUid);
      if source.None? {
        return Some(SourceDataSourceDoesNotExist);
      }
      if source.value.readOnly {
        return Some(SourceDataSourceReadOnly);
      }
      var deletedCount := CountSelected(correlations, cmd.uid, cmd.sourceUid);
      if deletedCount == 0 {
        return Some(CorrelationNotFound);
      }
      correlations := DeleteSelected(correlations, cmd.uid, cmd.sourceUid);
      return None;
    }

    /**
     * updateCorrelation: after the same source checks as delete, labelText and
     * description of the rows with this UID and source are set; updating
     * none is CorrelationNotFound. The DTO is the row read back.
     */
    method UpdateCorrelation(cmd: UpdateCommand) returns (dto: CorrelationDTO, err: Option<CorrelationError>)
      modifies this`correlations
      ensures var source := SourceCheck(dataSources, cmd.orgId, cmd.sourceUid, true);
        && (source.Some? ==> err == source)
        && (source.None? && CountSelected(old(correlations), cmd.uid, cmd.sourceUid) == 0 ==> err == Some(CorrelationNotFound))
        && (source.None? && CountSelected(old(correlations), cmd.uid, cmd.sourceUid) > 0 ==>
              && err == None
              && correlations == UpdateSelected(old(correlations), cmd.uid, cmd.sourceUid, cmd.labelText, cmd.description))
      ensures err.Some? ==> dto == EmptyDTO && correlations == old(correlations)
      ensures err.None? ==>
        var before := FirstSelected(old(correlations), cmd.uid, cmd.sourceUid);
        && before.Some?
        && dto == ToDTO(before.value.(labelText := cmd.labelText, description := cmd.description))
    {
      var source := FindDataSource(dataSources, cmd.orgId, cmd.sourceUid);
      if source.None? {
        return EmptyDTO, Some(SourceDataSourceDoesNotExist);
      }
      if source.value.readOnly {
        return EmptyDTO, Some(SourceDataSourceReadOnly);
      }
      var updateCount := CountSelected(correlations, cmd.uid, cmd.sourceUid);
      if updateCount == 0 {
        return EmptyDTO, Some(CorrelationNotFound);
      }
      FirstSelectedAfterUpdate(correlations, cmd.uid, cmd.sourceUid, cmd.labelText, cmd.description);
      correlations := UpdateSelected(correlations, cmd.uid, cmd.sourceUid, cmd.labelText, cmd.description);
      var found := FirstSelected(correlations, cmd.uid, cmd.sourceUid);
      if found.None? {
        return EmptyDTO, Some(CorrelationNotFound);
      }
      return ToDTO(found.value), None;
    }

    /** getCorrelation: the source must exist (read-only does not matter); then the row with this UID and source. */
    method GetCorrelation(q: GetQuery) returns (dto: CorrelationDTO, err: Option<CorrelationError>)
      ensures FindDataSource(dataSources, q.orgId, q.sourceUid).None? ==> err == Some(SourceDataSourceDoesNotExist) && dto == EmptyDTO
      ensures FindDataSource(dataSources, q.orgId, q.sourceUid).Some? ==>
        match FirstSelected(correlations, q.uid, q.sourceUid)
        case None => err == Some(CorrelationNotFound) && dto == EmptyDTO
        case Some(c) => err == None && dto == ToDTO(c) && dto.uid == q.uid && dto.sourceUid == q.sourceUid
    {
      if FindDataSource(dataSources, q.orgId, q.sourceUid).None? {
        return EmptyDTO, Some(SourceDataSourceDoesNotExist);
      }
      var found := FirstSelected(correlations, q.uid, q.sourceUid);
      if found.None? {
        return EmptyDTO, Some(CorrelationNotFound);
      }
      return ToDTO(found.value), None;
    }

    /**
     * getCorrelationsBySourceUID: every correlation with this source, in
     * table order. Emptiness is checked before the error of the lookup, so a
     * missing source is reported as CorrelationNotFound.
     */
    method GetCorrelationsBySourceUID(sourceUid: string, orgId: int) returns (dtos: seq<CorrelationDTO>, err: Option<CorrelationError>)
      ensures err == None || err == Some(CorrelationNotFound)
      ensures err == Some(CorrelationNotFound) <==>
        FindDataSource(dataSources, orgId, sourceUid).None? || WithSource(correlations, sourceUid) == []
      ensures err.Some? ==> dtos == []
      ensures err.None? ==> dtos == ToDTOs(WithSource(correlations, sourceUid))
    {
      var rows: seq<Correlation> := [];
      var lookupErr: Option<CorrelationError> := None;
      if FindDataSource(dataSources, orgId, sourceUid).None? {
        lookupErr := Some(SourceDataSourceDoesNotExist);
      } else {
        rows := WithSource(correlations, sourceUid);
      }
      if |rows| == 0 {
        return [], Some(CorrelationNotFound);
      }
      if lookupErr.Some? {
        return [], lookupErr;
      }
      dtos := [];
      var i := 0;
      while i < |rows|
        invariant 0 <= i <= |rows|
        invariant dtos == ToDTOs(rows[..i])
      {
        dtos := dtos + [ToDTO(rows[i])];
        i := i + 1;
      }
      assert rows[..i] == rows;
      return dtos, None;
    }

    /** getCorrelations: the correlations whose source data source belongs to the org; none is CorrelationNotFound. */
    method GetCorrelations(orgId: int) returns (dtos: seq<CorrelationDTO>, err: Option<CorrelationError>)
      ensures err == Some(CorrelationNotFound) <==> Joined(correlations, dataSources, orgId) == []
      ensures err.Some? ==> err == Some(CorrelationNotFound) && dtos == []
      ensures err.None? ==> dtos == ToDTOs(Joined(correlations, dataSources, orgId))
      ensures forall d :: d in dtos ==> exists s :: s in dataSources && s.uid == d.sourceUid && s.orgId == orgId
    {
      var rows := Joined(correlations, dataSources, orgId);
      if |rows| == 0 {
        return [], Some(CorrelationNotFound);
      }
      dtos := [];
      var i := 0;
      while i < |rows|
        invariant 0 <= i <= |rows|
        invariant dtos == ToDTOs(rows[..i])
      {
        dtos := dtos + [ToDTO(rows[i])];
        i := i + 1;
      }
      assert rows[..i] == rows;
      JoinedDTOsInOrg(correlations, dataSources, orgId);
      err := None;
    }

    /** deleteCorrelationsBySourceUID: every correlation with this source is removed. */
    method DeleteCorrelationsBySourceUID(sourceUid: string)
      modifies this`correlations
      ensures correlations == WithoutSource(old(correlations), sourceUid)
    {
      correlations := WithoutSource(correlations, sourceUid);
    }

    /** deleteCorrelationsByTargetUID: every correlation with this target is removed. */
    method DeleteCorrelationsByTargetUID(targetUid: string)
      modifies this`correlations
      ensures correlations == WithoutTarget(old(correlations), targetUid)
    {
      correlations := WithoutTarget(correlations, targetUid);
    }
  }
}
