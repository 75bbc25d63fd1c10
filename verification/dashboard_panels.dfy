/**
 * Panel query lookup for a dashboard: the first panel bound to a data
 * source decides the result, and a registry of per-data-source parsers
 * (only MySQL) turns that panel's targets into queries. The MySQL parser
 * decodes every target into one reused receiver, so a target that does not
 * set a field keeps the value the previous target left there.
 */
module DashboardPanels {
  import opened Wrappers

  // ---------------------------------------------------------------------------
  // JSON targets, as far as decoding into the MySQL receiver sees them

  /** The value under one key of a target object. */
  datatype JsonValue = JString(s: string) | JNull | JOther

  /**
   * A target: an object, the JSON `null`, any other JSON value, or a value
   * that cannot be encoded to JSON at all.
   */
  datatype Target =
    | JObject(fields: map<string, JsonValue>)
    | JNullTarget
    | JNonObject
    | Unencodable

  datatype ParseError = MarshalFailed | UnmarshalFailed

  /** The receiver the targets are decoded into: keys "format", "refId", "rawSql". */
  datatype MySQLPanelParser = MySQLPanelParser(format: string, refId: string, rawSql: string)

  /** One query of the result. */
  datatype MappedQuery = MappedQuery(format: string, refId: string, rawSql: string, intervalMs: int, maxDataPoints: int, datasourceId: int)

  const IntervalMs: int := 60000
  const MaxDataPoints: int := 400

  /** Decoding one key into a string field: a string replaces it, an absent key or null keeps it, anything else fails. */
  function DecodeField(current: string, fields: map<string, JsonValue>, key: string): (r: Result<string, ParseError>)
    ensures key !in fields ==> r == Ok(current)
    ensures key in fields && fields[key].JString? ==> r == Ok(fields[key].s)
    ensures key in fields && fields[key].JNull? ==> r == Ok(current)
    ensures key in fields && fields[key].JOther? ==> r == Err(UnmarshalFailed)
  {
    if key !in fields then Ok(current)
    else match fields[key]
      case JString(s) => Ok(s)
      case JNull => Ok(current)
      case JOther => Err(UnmarshalFailed)
  }

  /** Encoding a target and decoding it into the receiver `m`. */
  function Unmarshal(m: MySQLPanelParser, t: Target): (r: Result<MySQLPanelParser, ParseError>)
    ensures t.Unencodable? ==> r == Err(MarshalFailed)
    ensures t.JNullTarget? ==> r == Ok(m)
    ensures t.JNonObject? ==> r == Err(UnmarshalFailed)
    ensures t.JObject? ==> (r.Err? <==>
      DecodeField(m.format, t.fields, "format").Err? ||
      DecodeField(m.refId, t.fields, "refId").Err? ||
      DecodeField(m.rawSql, t.fields, "rawSql").Err?)
    ensures t.JObject? && r.Ok? ==>
      && r.value.format == DecodeField(m.format, t.fields, "format").value
      && r.value.refId == DecodeField(m.refId, t.fields, "refId").value
      && r.value.rawSql == DecodeField(m.rawSql, t.fields, "rawSql").value
  {
    match t
    case Unencodable => Err(MarshalFailed)
    case JNullTarget => Ok(m)
    case JNonObject => Err(UnmarshalFailed)
    case JObject(fields) =>
      var format := DecodeField(m.format, fields, "format");
      var refId := DecodeField(m.refId, fields, "refId");
      var rawSql := DecodeField(m.rawSql, fields, "rawSql");
      if format.Err? || refId.Err? || rawSql.Err? then Err(UnmarshalFailed)
      else Ok(MySQLPanelParser(format.value, refId.value, rawSql.value))
  }

  function Entry(m: MySQLPanelParser, datasourceId: int): MappedQuery {
    MappedQuery(m.format, m.refId, m.rawSql, IntervalMs, MaxDataPoints, datasourceId)
  }

  /**
   * ParsePanel as a value: the receiver after the targets so far and the
   * queries produced for them; the first target that fails ends it.
   */
  function ParseState(m: MySQLPanelParser, datasourceId: int, targets: seq<Target>): (r: Result<(MySQLPanelParser, seq<MappedQuery>), ParseError>)
    ensures r.Ok? ==> |r.value.1| == |targets|
    decreases |targets|
  {
    if targets == [] then Ok((m, []))
    else
      match ParseState(m, datasourceId, targets[..|targets| - 1])
      case Err(e) => Err(e)
      case Ok((current, out)) =>
        match Unmarshal(current, targets[|targets| - 1])
        case Err(e) => Err(e)
        case Ok(next) => Ok((next, out + [Entry(next, datasourceId)]))
  }

  function ParsePanelResult(m: MySQLPanelParser, datasourceId: int, targets: seq<Target>): (r: Result<seq<MappedQuery>, ParseError>)
    ensures r.Ok? ==> |r.value| == |targets|
  {
    match ParseState(m, datasourceId, targets)
    case Err(e) => Err(e)
    case Ok((_, out)) => Ok(out)
  }

  // ---------------------------------------------------------------------------
  // Properties of ParsePanel

  /** Once a prefix of the targets fails, the whole parse fails with that error. */
  lemma {:induction false} ErrorPersists(m: MySQLPanelParser, datasourceId: int, targets: seq<Target>, k: nat)
    requires k <= |targets|
    requires ParseState(m, datasourceId, targets[..k]).Err?
    ensures ParseState(m, datasourceId, targets) == ParseState(m, datasourceId, targets[..k])
    decreases |targets| - k
  {
    if k < |targets| {
      var next := targets[..k + 1];
      assert next[..|next| - 1] == targets[..k];
      ErrorPersists(m, datasourceId, targets, k + 1);
    } else {
      assert targets[..k] == targets;
    }
  }

  /** A successful parse's result restricted to a prefix is the parse of that prefix. */
  lemma {:induction false} PrefixOk(m: MySQLPanelParser, datasourceId: int, targets: seq<Target>, k: nat)
    requires k <= |targets|
    requires ParseState(m, datasourceId, targets).Ok?
    ensures ParseState(m, datasourceId, targets[..k]).Ok?
    ensures ParseState(m, datasourceId, targets[..k]).value.1 == ParseState(m, datasourceId, targets).value.1[..k]
    decreases |targets| - k
  {
    if k == |targets| {
      assert targets[..k] == targets;
    } else {
      var init := targets[..|targets| - 1];
      assert init[..k] == targets[..k];
      PrefixOk(m, datasourceId, init, k);
    }
  }

  /** The receiver before target `i` of a successful parse: the initial one, or the one target `i - 1` left. */
  function ReceiverBefore(m: MySQLPanelParser, datasourceId: int, targets: seq<Target>, i: nat): (r: MySQLPanelParser)
    requires i < |targets| && ParseState(m, datasourceId, targets).Ok?
  {
    PrefixOk(m, datasourceId, targets, i);
    ParseState(m, datasourceId, targets[..i]).value.0
  }

  /**
   * Query `i` of a successful parse is target `i` decoded into the receiver
   * the earlier targets left, with the fixed interval, data-point limit
   * and the data source id.
   */
  lemma QueryAt(m: MySQLPanelParser, datasourceId: int, targets: seq<Target>, i: nat)
    requires i < |targets| && ParseState(m, datasourceId, targets).Ok?
    ensures Unmarshal(ReceiverBefore(m, datasourceId, targets, i), targets[i]).Ok?
    ensures ParseState(m, datasourceId, targets).value.1[i]
      == Entry(Unmarshal(ReceiverBefore(m, datasourceId, targets, i), targets[i]).value, datasourceId)
    ensures i + 1 < |targets| ==>
      ReceiverBefore(m, datasourceId, targets, i + 1) == Unmarshal(ReceiverBefore(m, datasourceId, targets, i), targets[i]).value
  {
    PrefixOk(m, datasourceId, targets, i + 1);
    PrefixOk(m, datasourceId, targets, i);
    var upto := targets[..i + 1];
    assert upto[..|upto| - 1] == targets[..i];
    assert upto[|upto| - 1] == targets[i];
    var out := ParseState(m, datasourceId, targets).value.1;
    assert out[..i + 1][i] == out[i];
  }

  /** Every query carries intervalMs 60000, maxDataPoints 400 and the data source id. */
  lemma QueriesCarryConstants(m: MySQLPanelParser, datasourceId: int, targets: seq<Target>)
    requires ParsePanelResult(m, datasourceId, targets).Ok?
    ensures forall q :: q in ParsePanelResult(m, datasourceId, targets).value ==>
      q.intervalMs == 60000 && q.maxDataPoints == 400 && q.datasourceId == datasourceId
  {
    var out := ParsePanelResult(m, datasourceId, targets).value;
    forall q | q in out
      ensures q.intervalMs == 60000 && q.maxDataPoints == 400 && q.datasourceId == datasourceId
    {
      var i :| 0 <= i < |out| && out[i] == q;
      QueryAt(m, datasourceId, targets, i);
    }
  }

  /** A string under "format" in target `i` is query `i`'s format. */
  lemma FormatFromTarget(m: MySQLPanelParser, datasourceId: int, targets: seq<Target>, i: nat)
    requires i < |targets| && ParsePanelResult(m, datasourceId, targets).Ok?
    requires targets[i].JObject? && "format" in targets[i].fields && targets[i].fields["format"].JString?
    ensures ParsePanelResult(m, datasourceId, targets).value[i].format == targets[i].fields["format"].s
  {
    QueryAt(m, datasourceId, targets, i);
  }

  /**
   * A target that leaves "format" unset (no such key, a null, or a null
   * target) repeats the format of the query before it, or the receiver's
   * own format for the first target.
   */
  lemma FormatCarriedOver(m: MySQLPanelParser, datasourceId: int, targets: seq<Target>, i: nat)
    requires i < |targets| && ParsePanelResult(m, datasourceId, targets).Ok?
    requires targets[i].JNullTarget? ||
      (targets[i].JObject? && ("format" !in targets[i].fields || targets[i].fields["format"].JNull?))
    ensures var out := ParsePanelResult(m, datasourceId, targets).value;
      out[i].format == if i == 0 then m.format else out[i - 1].format
  {
    QueryAt(m, datasourceId, targets, i);
    if i == 0 {
      assert targets[..0] == [];
    } else {
      QueryAt(m, datasourceId, targets, i - 1);
    }
  }

  /**
   * ParsePanel: one query per target in target order, each from the reused
   * receiver after decoding that target; any encode or decode failure
   * aborts with no queries.
   */
  method ParsePanel(m: MySQLPanelParser, datasourceId: int, targets: seq<Target>) returns (r: Result<seq<MappedQuery>, ParseError>)
    ensures r == ParsePanelResult(m, datasourceId, targets)
  {
    var mappedData := new MappedQuery[|targets|];
    var current := m;
    var i := 0;
    while i < |targets|
      invariant 0 <= i <= |targets|
      invariant ParseState(m, datasourceId, targets[..i]) == Ok((current, mappedData[..i]))
    {
      var upto := targets[..i + 1];
      assert upto[..|upto| - 1] == targets[..i];
      var decoded := Unmarshal(current, targets[i]);
      if decoded.Err? {
        ErrorPersists(m, datasourceId, targets, i + 1);
        return Err(decoded.error);
      }
      current := decoded.value;
      mappedData[i] := Entry(current, datasourceId);
      assert mappedData[..i + 1] == mappedData[..i] + [Entry(current, datasourceId)];
      i := i + 1;
    }
    assert targets[..i] == targets;
    assert mappedData[..] == mappedData[..i];
    return Ok(mappedData[..]);
  }

  // ---------------------------------------------------------------------------
  // Panel lookup

  datatype Panel = Panel(id: int, datasource: string, targets: seq<Target>, panelType: string)

  datatype DataSource = DataSource(id: int, name: string)

  datatype PanelError =
    | PanelNotFound(datasource: string)
    | PanelNotImplemented(datasource: string)
    | ParseFailed(cause: ParseError)

  /** The parsers by data source name; the only one is MySQL, with an empty receiver. */
  const MetricQueries: map<string, MySQLPanelParser> := map["MySQL" := MySQLPanelParser("", "", "")]

  function ErrorMessage(e: PanelError): (msg: string)
    requires !e.ParseFailed?
  {
    match e
    case PanelNotFound(ds) => "Panel not found for datasource: " + ds
    case PanelNotImplemented(ds) => "Panel for " + ds + " is not implemented"
  }

  lemma MessagesDiffer(a: string, b: string)
    ensures ErrorMessage(PanelNotFound(a)) != ErrorMessage(PanelNotImplemented(b))
  {
    assert ErrorMessage(PanelNotFound(a))[6] == 'n';
    assert ErrorMessage(PanelNotImplemented(b))[6] == 'f';
  }

  /** The two messages never collide and each names its data source, so the message determines the error. */
  lemma ErrorMessageInjective(e1: PanelError, e2: PanelError)
    requires !e1.ParseFailed? && !e2.ParseFailed?
    requires ErrorMessage(e1) == ErrorMessage(e2)
    ensures e1 == e2
  {
    var m1, m2 := ErrorMessage(e1), ErrorMessage(e2);
    if e1.PanelNotFound? && e2.PanelNotImplemented? {
      MessagesDiffer(e1.datasource, e2.datasource);
    } else if e1.PanelNotImplemented? && e2.PanelNotFound? {
      MessagesDiffer(e2.datasource, e1.datasource);
    } else if e1.PanelNotFound? && e2.PanelNotFound? {
      assert e1.datasource == m1[32..] && e2.datasource == m2[32..];
    } else if e1.PanelNotImplemented? && e2.PanelNotImplemented? {
      var prefix, suffix := "Panel for ", " is not implemented";
      assert m1 == prefix + e1.datasource + suffix;
      assert m2 == prefix + e2.datasource + suffix;
      assert (prefix + e1.datasource + suffix)[|prefix|..|m1| - |suffix|] == e1.datasource;
      assert (prefix + e2.datasource + suffix)[|prefix|..|m2| - |suffix|] == e2.datasource;
    }
  }

  /**
   * GetDatasourcePanelQueries: the first panel whose data source is
   * `datasource.name` decides; it is parsed if a parser is registered for
   * that name, otherwise the result is PanelNotImplemented. No such panel
   * is PanelNotFound.
   */
  function GetDatasourcePanelQueries(panels: seq<Panel>, datasource: DataSource): (r: Result<seq<MappedQuery>, PanelError>)
    ensures r == Err(PanelNotFound(datasource.name)) <==> forall p :: p in panels ==> p.datasource != datasource.name
    ensures r.Err? && r.error.PanelNotImplemented? ==> r.error.datasource == datasource.name && datasource.name !in MetricQueries
    ensures r.Ok? ==>
      && datasource.name == "MySQL"
      && exists p :: p in panels && p.datasource == datasource.name
           && r == ParsePanelMapped(MetricQueries["MySQL"], datasource.id, p.targets)
  {
    if panels == [] then Err(PanelNotFound(datasource.name))
    else if datasource.name == panels[0].datasource then
      if panels[0].datasource in MetricQueries then
        ParsePanelMapped(MetricQueries[panels[0].datasource], datasource.id, panels[0].targets)
      else Err(PanelNotImplemented(datasource.name))
    else GetDatasourcePanelQueries(panels[1..], datasource)
  }

  function ParsePanelMapped(m: MySQLPanelParser, datasourceId: int, targets: seq<Target>): (r: Result<seq<MappedQuery>, PanelError>)
    ensures r.Ok? <==> ParsePanelResult(m, datasourceId, targets).Ok?
    ensures r.Ok? ==> r.value == ParsePanelResult(m, datasourceId, targets).value
    ensures r.Err? ==> r.error == ParseFailed(ParsePanelResult(m, datasourceId, targets).error)
  {
    match ParsePanelResult(m, datasourceId, targets)
    case Ok(out) => Ok(out)
    case Err(e) => Err(ParseFailed(e))
  }

  /** Panels after the first matching one never affect the result. */
  lemma {:induction false} LaterPanelsIgnored(panels: seq<Panel>, later: seq<Panel>, datasource: DataSource)
    requires exists p :: p in panels && p.datasource == datasource.name
    ensures GetDatasourcePanelQueries(panels + later, datasource) == GetDatasourcePanelQueries(panels, datasource)
  {
    assert panels != [];
    assert (panels + later)[0] == panels[0];
    if panels[0].datasource != datasource.name {
      assert (panels + later)[1..] == panels[1..] + later;
      var p :| p in panels && p.datasource == datasource.name;
      assert p in panels[1..];
      LaterPanelsIgnored(panels[1..], later, datasource);
    }
  }

  /** Only MySQL panels produce queries: for any other data source the result is an error. */
  lemma {:induction false} OnlyMySQLProducesQueries(panels: seq<Panel>, datasource: DataSource)
    requires datasource.name != "MySQL"
    ensures GetDatasourcePanelQueries(panels, datasource).Err?
    ensures GetDatasourcePanelQueries(panels, datasource).error.PanelNotFound?
         || GetDatasourcePanelQueries(panels, datasource).error.PanelNotImplemented?
  {
    if panels != [] && panels[0].datasource != datasource.name {
      OnlyMySQLProducesQueries(panels[1..], datasource);
    }
  }
}
