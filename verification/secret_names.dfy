/**
 * Secret naming scheme of the AWS Secrets Manager plugin server.
 *
 * A key descriptor (namespace, type, organisation id) is stored under the
 * secret name `<ns>///<type>///<org>`, where every `///` inside a component
 * is first replaced by `-`. Names read back from a listing are split on the
 * separator again; the organisation id is parsed as a base-10 64-bit integer.
 */
module SecretNames {
  import opened Wrappers

  const KeySeparator: string := "///"

  /** Prefix of the namespace a key is renamed to before it is soft-deleted. */
  const SoftDeletionPrefix: string := "scheduled-for-deletion-"

  const MinInt64: int := -0x8000_0000_0000_0000
  const MaxInt64: int := 0x7FFF_FFFF_FFFF_FFFF

  type Int64 = x: int | MinInt64 <= x <= MaxInt64

  /** The plugin protocol's key descriptor. */
  datatype Key = Key(namespace: string, keyType: string, orgId: Int64)

  /** The two ways `strconv.ParseInt` rejects its input. */
  datatype NumError = ErrSyntax | ErrRange

  /**
   * Why a secret name is not turned into a key: fewer than three
   * separator-delimited segments (the source indexes past the end of the
   * split result and panics), or an organisation id that does not parse.
   */
  datatype NameError = SegmentMissing | BadOrgId(cause: NumError)

  // ---------------------------------------------------------------------------
  // Separator occurrences

  /** `///` starts at position `i` of `s`. */
  predicate SeparatorAt(s: string, i: int) {
    0 <= i && i + 3 <= |s| && s[i] == '/' && s[i + 1] == '/' && s[i + 2] == '/'
  }

  predicate HasSeparator(s: string) {
    exists i :: 0 <= i < |s| && SeparatorAt(s, i)
  }

  predicate EndsWithSlash(s: string) {
    |s| > 0 && s[|s| - 1] == '/'
  }

  predicate NoSlash(s: string) {
    forall i :: 0 <= i < |s| ==> s[i] != '/'
  }

  /** The first occurrence of the separator at or after `from`, as `strings.Index` finds it. */
  function FirstSeparatorFrom(s: string, from: nat): (r: Option<nat>)
    decreases |s| - from
    ensures r.Some? ==> from <= r.value && SeparatorAt(s, r.value)
    ensures r.Some? ==> forall j :: from <= j < r.value ==> !SeparatorAt(s, j)
    ensures r.None? ==> forall j :: from <= j ==> !SeparatorAt(s, j)
  {
    if from + 3 > |s| then None
    else if SeparatorAt(s, from) then Some(from)
    else FirstSeparatorFrom(s, from + 1)
  }

  // ---------------------------------------------------------------------------
  // sanitizeComponent: strings.ReplaceAll(c, "///", "-")

  /** Replaces every `///` by `-`, scanning left to right without overlaps. */
  function Sanitize(c: string): string
    decreases |c|
  {
    if |c| < 3 then c
    else if SeparatorAt(c, 0) then "-" + Sanitize(c[3..])
    else [c[0]] + Sanitize(c[1..])
  }

  /**
   * A sanitised component never contains the separator, so it cannot be
   * mistaken for a segment boundary. The two extra conclusions say that a
   * leading slash (or two) of the output comes from the input.
   */
  lemma {:induction false} SanitizeHasNoSeparator(c: string)
    ensures !HasSeparator(Sanitize(c))
    ensures |Sanitize(c)| > 0 && Sanitize(c)[0] == '/' ==> |c| > 0 && c[0] == '/'
    ensures |Sanitize(c)| > 1 && Sanitize(c)[0] == '/' && Sanitize(c)[1] == '/' ==> |c| > 1 && c[1] == '/'
    decreases |c|
  {
    var r := Sanitize(c);
    if |c| < 3 {
      assert r == c;
      forall i ensures !SeparatorAt(r, i) { }
    } else if SeparatorAt(c, 0) {
      var t := Sanitize(c[3..]);
      SanitizeHasNoSeparator(c[3..]);
      assert r == "-" + t;
      forall i ensures !SeparatorAt(r, i) {
        if i >= 1 {
          assert SeparatorAt(r, i) == SeparatorAt(t, i - 1);
        }
      }
    } else {
      var t := Sanitize(c[1..]);
      SanitizeHasNoSeparator(c[1..]);
      assert r == [c[0]] + t;
      forall i ensures !SeparatorAt(r, i) {
        if i >= 1 {
          assert SeparatorAt(r, i) == SeparatorAt(t, i - 1);
        }
      }
    }
  }

  /** On a component without the separator, sanitising changes nothing. */
  lemma {:induction false} SanitizeIdentity(c: string)
    requires !HasSeparator(c)
    ensures Sanitize(c) == c
    decreases |c|
  {
    if |c| >= 3 {
      assert !SeparatorAt(c, 0);
      forall i ensures !SeparatorAt(c[1..], i) {
        if SeparatorAt(c[1..], i) { assert SeparatorAt(c, i + 1); }
      }
      SanitizeIdentity(c[1..]);
      assert c == [c[0]] + c[1..];
    }
  }

  // ---------------------------------------------------------------------------
  // Decimal formatting (`%d`) and strconv.ParseInt(s, 10, 64)

  predicate IsDigit(ch: char) {
    '0' <= ch <= '9'
  }

  predicate AllDigits(s: string) {
    forall i :: 0 <= i < |s| ==> IsDigit(s[i])
  }

  function DigitChar(d: nat): (ch: char)
    requires d < 10
    ensures IsDigit(ch) && ch as int - '0' as int == d
  {
    ('0' as int + d) as char
  }

  /** Decimal digits of `n`, most significant first, no leading zeros. */
  function NatToDecimal(n: nat): (s: string)
    ensures |s| > 0 && AllDigits(s)
    decreases n
  {
    if n < 10 then [DigitChar(n)] else NatToDecimal(n / 10) + [DigitChar(n % 10)]
  }

  /** Go's `%d` rendering of an integer: a minus sign for negative values. */
  function FormatInt(x: int): (s: string)
    ensures |s| > 0 && NoSlash(s)
  {
    if x < 0 then "-" + NatToDecimal(-x) else NatToDecimal(x)
  }

  function DigitsValue(s: string): nat
    requires AllDigits(s)
    decreases |s|
  {
    if s == [] then 0 else DigitsValue(s[..|s| - 1]) * 10 + (s[|s| - 1] as int - '0' as int)
  }

  const MaxUint64: int := 0xFFFF_FFFF_FFFF_FFFF

  /**
   * strconv.ParseUint(s, 10, 64) over a non-empty string, left to right: the
   * first character that is not a digit is a syntax error, and the first
   * digit that takes the value past the unsigned 64-bit range is a range
   * error, whichever comes first.
   */
  function ScanUint(s: string): Result<nat, NumError>
    decreases |s|
  {
    if s == [] then Ok(0)
    else match ScanUint(s[..|s| - 1])
      case Err(e) => Err(e)
      case Ok(v) =>
        var ch := s[|s| - 1];
        if !IsDigit(ch) then Err(ErrSyntax)
        else if v * 10 + (ch as int - '0' as int) > MaxUint64 then Err(ErrRange)
        else Ok(v * 10 + (ch as int - '0' as int))
  }

  /** A scan that failed on a prefix fails the same way whatever follows. */
  lemma {:induction false} ScanUintStopsAtError(p: string, rest: string)
    requires ScanUint(p).Err?
    ensures ScanUint(p + rest) == ScanUint(p)
    decreases |rest|
  {
    if rest == [] {
      assert p + rest == p;
    } else {
      var init := rest[..|rest| - 1];
      ScanUintStopsAtError(p, init);
      assert (p + rest)[..|p + rest| - 1] == p + init;
    }
  }

  /** Over digits alone the scan gives their value, or the range error exactly when the value does not fit. */
  lemma {:induction false} ScanUintDigits(s: string)
    requires AllDigits(s)
    ensures ScanUint(s).Ok? <==> DigitsValue(s) <= MaxUint64
    ensures ScanUint(s).Ok? ==> ScanUint(s).value == DigitsValue(s)
    ensures ScanUint(s).Err? ==> ScanUint(s).error == ErrRange
    decreases |s|
  {
    if s != [] {
      var init := s[..|s| - 1];
      assert AllDigits(init) by {
        forall i | 0 <= i < |init| ensures IsDigit(init[i]) { assert init[i] == s[i]; }
      }
      ScanUintDigits(init);
      assert IsDigit(s[|s| - 1]);
    }
  }

  /** The scan succeeds only over digits, with their value within the unsigned 64-bit range. */
  lemma {:induction false} ScanUintOk(s: string)
    requires ScanUint(s).Ok?
    ensures AllDigits(s) && ScanUint(s).value == DigitsValue(s) <= MaxUint64
    decreases |s|
  {
    if s != [] {
      var init := s[..|s| - 1];
      ScanUintOk(init);
      forall i | 0 <= i < |s| ensures IsDigit(s[i]) {
        if i < |init| { assert s[i] == init[i]; }
      }
    }
  }

  /**
   * strconv.ParseInt(s, 10, 64): an optional sign, then the unsigned scan of
   * the rest, which must not be empty; a value that fits the unsigned but
   * not the signed 64-bit range is a range error.
   */
  function ParseInt(s: string): (r: Result<Int64, NumError>)
    ensures r.Ok? ==> |s| > 0
  {
    if |s| == 0 then Err(ErrSyntax)
    else
      var neg := s[0] == '-';
      var body := if s[0] == '+' || s[0] == '-' then s[1..] else s;
      if |body| == 0 then Err(ErrSyntax)
      else match ScanUint(body)
        case Err(e) => Err(e)
        case Ok(v) =>
          if !neg && v > MaxInt64 then Err(ErrRange)
          else if neg && v > -MinInt64 then Err(ErrRange)
          else
            var x: int := if neg then 0 - (v as int) else v as int;
            Ok(x)
  }

  /**
   * Parsing accepts exactly a sign and digits whose value is a 64-bit
   * integer. A digit run past the unsigned range is a range error even when
   * a character that is not a digit follows it.
   */
  lemma ParseIntAccepts(s: string)
    ensures ParseInt(s).Ok? ==>
      var body := if s[0] == '+' || s[0] == '-' then s[1..] else s;
      && |body| > 0 && AllDigits(body)
      && ParseInt(s).value == (if s[0] == '-' then 0 - DigitsValue(body) else DigitsValue(body))
  {
    if ParseInt(s).Ok? {
      ScanUintOk(if s[0] == '+' || s[0] == '-' then s[1..] else s);
    }
  }

  lemma OverflowBeforeSyntaxError(digits: string, rest: string)
    requires |digits| > 0 && AllDigits(digits) && DigitsValue(digits) > MaxUint64
    ensures ParseInt(digits + rest) == Err(ErrRange)
  {
    ScanUintDigits(digits);
    ScanUintStopsAtError(digits, rest);
    assert (digits + rest)[0] == digits[0];
  }

  lemma {:induction false} DecimalRoundTrip(n: nat)
    ensures DigitsValue(NatToDecimal(n)) == n
    decreases n
  {
    if n >= 10 {
      var s := NatToDecimal(n);
      DecimalRoundTrip(n / 10);
      assert s[..|s| - 1] == NatToDecimal(n / 10);
    }
  }

  /** Every 64-bit integer survives formatting with `%d` and parsing back. */
  lemma FormatParseRoundTrip(x: Int64)
    ensures ParseInt(FormatInt(x)) == Ok(x)
  {
    if x < 0 {
      NegativeParseRoundTrip(x);
    } else {
      DecimalRoundTrip(x);
      var s := NatToDecimal(x);
      assert IsDigit(s[0]);
      ScanUintDigits(s);
    }
  }

  /** A negative id is written as `-` and its magnitude, which parses back within the 64-bit range. */
  lemma NegativeParseRoundTrip(x: Int64)
    requires x < 0
    ensures ParseInt(FormatInt(x)) == Ok(x)
  {
    var magnitude := -(x as int);
    DecimalRoundTrip(magnitude);
    var s := FormatInt(x);
    assert s == "-" + NatToDecimal(magnitude);
    assert s[0] == '-' && s[1..] == NatToDecimal(magnitude);
    assert DigitsValue(s[1..]) == magnitude <= -MinInt64;
    ScanUintDigits(s[1..]);
  }

  // ---------------------------------------------------------------------------
  // strings.Split(name, "///")

  /** Splits at every separator occurrence, as `strings.Split` does for a non-empty separator. */
  function Split(s: string): (parts: seq<string>)
    ensures |parts| > 0
    decreases |s|
  {
    match FirstSeparatorFrom(s, 0)
    case None => [s]
    case Some(i) => [s[..i]] + Split(s[i + 3..])
  }

  /** A component without the separator that does not end in `/` is cut exactly at the separator that follows it. */
  lemma SplitAfterComponent(a: string, rest: string)
    requires !HasSeparator(a) && !EndsWithSlash(a)
    ensures Split(a + KeySeparator + rest) == [a] + Split(rest)
  {
    var s := a + KeySeparator + rest;
    assert SeparatorAt(s, |a|);
    forall j | 0 <= j < |a| ensures !SeparatorAt(s, j) {
      if j + 3 <= |a| {
        assert SeparatorAt(s, j) == SeparatorAt(a, j);
      } else {
        assert s[|a| - 1] == a[|a| - 1];
      }
    }
    var f := FirstSeparatorFrom(s, 0);
    assert f == Some(|a|);
    assert s[..|a|] == a;
    assert s[|a| + 3..] == rest;
  }

  lemma SplitWithoutSlash(s: string)
    requires NoSlash(s)
    ensures Split(s) == [s]
  {
    assert forall j :: !SeparatorAt(s, j);
    assert FirstSeparatorFrom(s, 0).None?;
  }

  // ---------------------------------------------------------------------------
  // The naming functions

  /** getFormattedSecretName: `<ns>///<type>///<org>`. */
  function FormattedSecretName(kd: Key): string
  {
    Sanitize(kd.namespace) + KeySeparator + Sanitize(kd.keyType) + KeySeparator + FormatInt(kd.orgId)
  }

  /** getFormattedSecretUpdatedName: the name the key would have under namespace `newNs`. */
  function FormattedSecretUpdatedName(kd: Key, newNs: string): (name: string)
    ensures name == FormattedSecretName(kd.(namespace := newNs))
  {
    Sanitize(newNs) + KeySeparator + Sanitize(kd.keyType) + KeySeparator + FormatInt(kd.orgId)
  }

  /**
   * getFormattedKeyPrefix: the ListSecrets name filter. For one organisation
   * it is the whole secret name; across organisations it stops after the
   * second separator, so it is a prefix of the name of every organisation's key.
   */
  function FormattedKeyPrefix(kd: Key, allOrgs: bool): (prefix: string)
    ensures !allOrgs ==> prefix == FormattedSecretName(kd)
    ensures allOrgs ==> forall org: Int64 :: prefix <= FormattedSecretName(kd.(orgId := org))
  {
    var str := Sanitize(kd.namespace) + KeySeparator + Sanitize(kd.keyType) + KeySeparator;
    if !allOrgs then str + FormatInt(kd.orgId) else str
  }

  /** createSoftDeletionKey, with the fresh UUID passed in. */
  function SoftDeletionKey(kd: Key, uuid: string): (k: Key)
    ensures k.orgId == kd.orgId && k.keyType == kd.keyType
    ensures k.namespace == SoftDeletionPrefix + uuid + "/" + kd.namespace
  {
    Key(SoftDeletionPrefix + uuid + "/" + kd.namespace, kd.keyType, kd.orgId)
  }

  /** getKeyForFormattedSecretName. Segments after the third are ignored. */
  function KeyForFormattedSecretName(name: string): (r: Result<Key, NameError>)
    ensures r.Ok? ==> |Split(name)| >= 3 && r.value == Key(Split(name)[0], Split(name)[1], r.value.orgId)
    ensures r.Ok? ==> ParseInt(Split(name)[2]) == Ok(r.value.orgId)
    ensures |Split(name)| < 3 <==> r == Err(SegmentMissing)
  {
    var sp := Split(name);
    if |sp| < 3 then Err(SegmentMissing)
    else
      match ParseInt(sp[2])
      case Err(e) => Err(BadOrgId(e))
      case Ok(org) => Ok(Key(sp[0], sp[1], org))
  }

  /**
   * Round trip: a key whose namespace and type contain no separator and do
   * not end in `/` is recovered from its secret name, for every organisation
   * id including negative ones.
   */
  lemma FormattedNameRoundTrip(k: Key)
    requires !HasSeparator(k.namespace) && !EndsWithSlash(k.namespace)
    requires !HasSeparator(k.keyType) && !EndsWithSlash(k.keyType)
    ensures KeyForFormattedSecretName(FormattedSecretName(k)) == Ok(k)
  {
    SanitizeIdentity(k.namespace);
    SanitizeIdentity(k.keyType);
    var digits := FormatInt(k.orgId);
    var name := FormattedSecretName(k);
    assert name == k.namespace + KeySeparator + (k.keyType + KeySeparator + digits);
    SplitAfterComponent(k.namespace, k.keyType + KeySeparator + digits);
    SplitAfterComponent(k.keyType, digits);
    SplitWithoutSlash(digits);
    assert Split(name) == [k.namespace, k.keyType, digits];
    FormatParseRoundTrip(k.orgId);
  }

  /**
   * The round trip needs the trailing-slash condition: a namespace ending in
   * `/` comes back without it, and the slash moves to the front of the type.
   */
  lemma TrailingSlashBreaksRoundTrip(ns: string, t: string, org: Int64)
    requires !HasSeparator(ns + "/") && !EndsWithSlash(ns)
    requires !HasSeparator(t) && !HasSeparator("/" + t) && !EndsWithSlash("/" + t)
    ensures KeyForFormattedSecretName(FormattedSecretName(Key(ns + "/", t, org))) == Ok(Key(ns, "/" + t, org))
  {
    NoSeparatorBeforeSlash(ns);
    SlashMovesToType(ns, t, org);
    FormattedNameRoundTrip(Key(ns, "/" + t, org));
  }

  lemma NoSeparatorBeforeSlash(ns: string)
    requires !HasSeparator(ns + "/")
    ensures !HasSeparator(ns)
  {
    forall i | SeparatorAt(ns, i) ensures SeparatorAt(ns + "/", i) { }
  }

  /** Moving a slash across the separator between namespace and type does not change the secret name. */
  lemma SlashMovesToType(ns: string, t: string, org: Int64)
    requires !HasSeparator(ns + "/") && !HasSeparator(ns) && !HasSeparator(t) && !HasSeparator("/" + t)
    ensures FormattedSecretName(Key(ns + "/", t, org)) == FormattedSecretName(Key(ns, "/" + t, org))
  {
    SanitizeIdentity(ns + "/");
    SanitizeIdentity(t);
    SanitizeIdentity(ns);
    SanitizeIdentity("/" + t);
    assert (ns + "/") + KeySeparator + t == ns + KeySeparator + ("/" + t);
  }

  // ---------------------------------------------------------------------------
  // mapSecretEntriesToKeys

  /** The key of the last entry whose name parses, if any. */
  function LastParsedKey(entries: seq<string>): (k: Option<Key>)
    decreases |entries|
  {
    if entries == [] then None
    else
      match KeyForFormattedSecretName(entries[|entries| - 1])
      case Ok(k) => Some(k)
      case Err(_) => LastParsedKey(entries[..|entries| - 1])
  }

  /** The key kept is parsed from one of the entries, and there is none exactly when no entry parses. */
  lemma {:induction false} LastParsedKeySound(entries: seq<string>)
    ensures var k := LastParsedKey(entries);
      && (k.Some? ==> exists i :: 0 <= i < |entries| && KeyForFormattedSecretName(entries[i]) == Ok(k.value))
      && (k.None? <==> forall i :: 0 <= i < |entries| ==> KeyForFormattedSecretName(entries[i]).Err?)
    decreases |entries|
  {
    if entries != [] {
      var init := entries[..|entries| - 1];
      LastParsedKeySound(init);
      forall i | 0 <= i < |init| ensures init[i] == entries[i] { }
    }
  }

  function OptionToSeq(k: Option<Key>): seq<Key> {
    match k
    case None => []
    case Some(v) => [v]
  }

  /** The keys of all entries whose names parse, in order. */
  function ParsedKeys(entries: seq<string>): (keys: seq<Key>)
    ensures |keys| <= |entries|
    decreases |entries|
  {
    if entries == [] then []
    else
      var rest := ParsedKeys(entries[..|entries| - 1]);
      match KeyForFormattedSecretName(entries[|entries| - 1])
      case Ok(k) => rest + [k]
      case Err(_) => rest
  }

  /** Some entry splits into fewer than three segments, so reading its third segment panics. */
  predicate Panics(entries: seq<string>)
    decreases |entries|
  {
    entries != [] && (Panics(entries[..|entries| - 1]) || |Split(entries[|entries| - 1])| < 3)
  }

  /** `Panics` holds exactly when some entry has fewer than three segments. */
  lemma {:induction false} PanicsIff(entries: seq<string>)
    ensures Panics(entries) <==> exists i :: 0 <= i < |entries| && |Split(entries[i])| < 3
    decreases |entries|
  {
    if entries != [] {
      var init := entries[..|entries| - 1];
      PanicsIff(init);
      if Panics(init) {
        var i :| 0 <= i < |init| && |Split(init[i])| < 3;
        assert entries[i] == init[i];
      }
      if i :| 0 <= i < |entries| && |Split(entries[i])| < 3 {
        if i < |init| {
          assert init[i] == entries[i];
        }
      }
    }
  }

  /** A panic in a prefix is a panic of the whole conversion. */
  lemma {:induction false} PanicsPrefix(entries: seq<string>, n: nat)
    requires n <= |entries| && Panics(entries[..n])
    ensures Panics(entries)
    decreases |entries|
  {
    if n == |entries| {
      assert entries[..n] == entries;
    } else {
      var init := entries[..|entries| - 1];
      assert init[..n] == entries[..n];
      PanicsPrefix(init, n);
    }
  }

  /** One more entry: its key, when it parses, becomes the last parsed key and is appended to the parsed keys. */
  lemma ParsedPrefixStep(entries: seq<string>, i: nat)
    requires i < |entries|
    ensures var parsed := KeyForFormattedSecretName(entries[i]);
      && LastParsedKey(entries[..i + 1]) == (if parsed.Ok? then Some(parsed.value) else LastParsedKey(entries[..i]))
      && ParsedKeys(entries[..i + 1]) == ParsedKeys(entries[..i]) + (if parsed.Ok? then [parsed.value] else [])
      && (Panics(entries[..i + 1]) <==> Panics(entries[..i]) || |Split(entries[i])| < 3)
  {
    assert entries[..i + 1][..i] == entries[..i];
  }

  /** The as-written output is replaced by the original keys plus the entry's key exactly when the entry parses. */
  lemma KeptStep(keysIn: seq<Key>, entries: seq<string>, i: nat)
    requires i < |entries|
    ensures var parsed := KeyForFormattedSecretName(entries[i]);
      && keysIn + OptionToSeq(LastParsedKey(entries[..i + 1]))
           == (if parsed.Ok? then keysIn + [parsed.value] else keysIn + OptionToSeq(LastParsedKey(entries[..i])))
      && (Panics(entries[..i + 1]) <==> Panics(entries[..i]) || |Split(entries[i])| < 3)
  {
    ParsedPrefixStep(entries, i);
  }

  /**
   * mapSecretEntriesToKeys as written: every successful parse assigns
   * `append(keys, k)` to the output, where `keys` is the slice captured on
   * entry, so only the last parseable entry is kept beyond the original
   * contents. An entry with fewer than three segments panics (`panicked`).
   */
  method MapSecretEntriesToKeys(entries: seq<string>, keysIn: seq<Key>) returns (keysOut: seq<Key>, panicked: bool)
    ensures panicked == Panics(entries)
    ensures !panicked ==> keysOut == keysIn + OptionToSeq(LastParsedKey(entries))
  {
    var keys := keysIn;
    keysOut := keysIn;
    panicked := false;
    var i := 0;
    while i < |entries|
      invariant 0 <= i <= |entries|
      invariant !Panics(entries[..i])
      invariant keysOut == keysIn + OptionToSeq(LastParsedKey(entries[..i]))
    {
      var parsed := KeyForFormattedSecretName(entries[i]);
      KeptStep(keysIn, entries, i);
      if parsed == Err(SegmentMissing) {
        PanicsPrefix(entries, i + 1);
        panicked := true;
        return;
      }
      if parsed.Ok? {
        keysOut := keys + [parsed.value];
      }
      i := i + 1;
    }
    assert entries[..i] == entries;
  }

  /** The corrected conversion's output grows by the entry's key exactly when the entry parses. */
  lemma AppendedStep(keysIn: seq<Key>, entries: seq<string>, i: nat)
    requires i < |entries|
    ensures var parsed := KeyForFormattedSecretName(entries[i]);
      keysIn + ParsedKeys(entries[..i + 1])
        == if parsed.Ok? then (keysIn + ParsedKeys(entries[..i])) + [parsed.value] else keysIn + ParsedKeys(entries[..i])
  {
    ParsedPrefixStep(entries, i);
  }

  /** The corrected conversion: every parseable entry is appended, in order. */
  method MapSecretEntriesToKeysAppendingAll(entries: seq<string>, keysIn: seq<Key>) returns (keysOut: seq<Key>, panicked: bool)
    ensures panicked == Panics(entries)
    ensures !panicked ==> keysOut == keysIn + ParsedKeys(entries)
  {
    keysOut := keysIn;
    panicked := false;
    var i := 0;
    while i < |entries|
      invariant 0 <= i <= |entries|
      invariant !Panics(entries[..i])
      invariant keysOut == keysIn + ParsedKeys(entries[..i])
    {
      var parsed := KeyForFormattedSecretName(entries[i]);
      ParsedPrefixStep(entries, i);
      AppendedStep(keysIn, entries, i);
      if parsed == Err(SegmentMissing) {
        PanicsPrefix(entries, i + 1);
        panicked := true;
        return;
      }
      if parsed.Ok? {
        keysOut := keysOut + [parsed.value];
      }
      i := i + 1;
    }
    assert entries[..i] == entries;
  }

  /**
   * Any two well-formed names: the conversion as written returns only the
   * second key, while every name parses and the corrected conversion
   * returns both.
   */
  lemma OnlyLastEntryKept(k1: Key, k2: Key)
    requires !HasSeparator(k1.namespace) && !EndsWithSlash(k1.namespace)
    requires !HasSeparator(k1.keyType) && !EndsWithSlash(k1.keyType)
    requires !HasSeparator(k2.namespace) && !EndsWithSlash(k2.namespace)
    requires !HasSeparator(k2.keyType) && !EndsWithSlash(k2.keyType)
    ensures var entries := [FormattedSecretName(k1), FormattedSecretName(k2)];
      && !Panics(entries)
      && LastParsedKey(entries) == Some(k2)
      && ParsedKeys(entries) == [k1, k2]
  {
    FormattedNameRoundTrip(k1);
    FormattedNameRoundTrip(k2);
    var entries := [FormattedSecretName(k1), FormattedSecretName(k2)];
    assert entries[..1] == [FormattedSecretName(k1)];
    assert entries[..1][..0] == [];
    assert !Panics(entries[..1]);
  }
}
