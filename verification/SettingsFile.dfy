/** A profile's file as a whole: saving and loading it (crates/snxcore/src/model/params.rs). */
module SettingsFiles {
  import Base64
  import opened ConfigText
  import opened Settings
  import opened Wrappers

  /** The settings by option name. */
  type Params = map<string, Value>

  /** The options a file has lines for, in the order they are written, and those that are only ever read. */
  datatype Schema = Schema(saved: seq<Row>, readOnly: seq<Row>)

  function Keys(rows: seq<Row>): set<string> {
    set r | r in rows :: r.key
  }

  function AllKeys(schema: Schema): (r: set<string>)
    ensures Keys(schema.saved) <= r
  {
    Keys(schema.saved) + Keys(schema.readOnly)
  }

  function KindIn(rows: seq<Row>, key: string): (r: Option<Kind>)
    ensures r.Some? <==> key in Keys(rows)
    ensures r.Some? ==> Row(key, r.value) in rows
  {
    if rows == [] then None
    else if rows[0].key == key then
      assert rows[0] == Row(key, rows[0].kind);
      Some(rows[0].kind)
    else
      assert rows == [rows[0]] + rows[1..];
      KindIn(rows[1..], key)
  }

  function KindOf(schema: Schema, key: string): (r: Kind)
    requires key in AllKeys(schema)
    ensures Row(key, r) in schema.saved || Row(key, r) in schema.readOnly
  {
    match KindIn(schema.saved, key)
    case Some(kind) => kind
    case None => KindIn(schema.readOnly, key).value
  }

  predicate WellTyped(schema: Schema, p: Params) {
    p.Keys == AllKeys(schema) && forall k | k in p :: Typed(KindOf(schema, k), p[k])
  }

  function Defaults(schema: Schema): Params {
    map k | k in AllKeys(schema) :: Default(KindOf(schema, k))
  }

  // ----- Loading -----

  /** Only a password can make a file unreadable. */
  predicate Undecodable(schema: Schema, key: string, v: string) {
    key in AllKeys(schema) && KindOf(schema, key).SecretKind? && Base64.Decode(v).None?
  }

  /** The setting that a file's lines give an option. */
  function LoadedValue(schema: Schema, config: map<string, string>, key: string): Value
    requires key in AllKeys(schema)
  {
    if key in config then Read(KindOf(schema, key), config[key]) else Default(KindOf(schema, key))
  }

  /** Each option is read from its own line, whatever the order; unknown options are ignored. */
  function Loaded(schema: Schema, text: string): Option<Params> {
    var config := Parsed(text);
    if exists k | k in config :: Undecodable(schema, k, config[k]) then None
    else Some(map k | k in AllKeys(schema) :: LoadedValue(schema, config, k))
  }

  // ----- Saving -----

  function LineFor(schema: Schema, p: Params, key: string): seq<string>
    requires WellTyped(schema, p) && key in p
  {
    match Print(KindOf(schema, key), p[key])
    case None => []
    case Some(value) => [Line(key, value)]
  }

  function SavedLines(schema: Schema, rows: seq<Row>, p: Params): seq<string>
    requires WellTyped(schema, p) && Keys(rows) <= AllKeys(schema)
  {
    if rows == [] then []
    else
      var front, last := rows[..|rows| - 1], rows[|rows| - 1];
      assert rows == front + [last] && last in rows && Keys(front) <= Keys(rows);
      SavedLines(schema, front, p) + LineFor(schema, p, last.key)
  }

  function SavedText(schema: Schema, p: Params): string
    requires WellTyped(schema, p)
  {
    Unlines(SavedLines(schema, schema.saved, p))
  }

  class TunnelParams {
    const schema: Schema
    var settings: Params

    constructor (schema: Schema)
      ensures this.schema == schema && settings == Defaults(schema)
    {
      this.schema := schema;
      settings := Defaults(schema);
    }

    method Load(text: string) returns (ok: bool)
      modifies this
      ensures ok <==> Loaded(schema, text).Some?
      ensures ok ==> settings == Loaded(schema, text).value
    {
      settings := Defaults(schema);
      ok := true;
      var config := ParseConfig(text);
      var todo := config.Keys;
      while todo != {}
        invariant todo <= config.Keys && LoadedSoFar(schema, config, todo, settings)
        invariant ok <==> forall k | k in config && k !in todo :: !Undecodable(schema, k, config[k])
        decreases |todo|
      {
        var k :| k in todo;
        LoadOneMore(schema, config, todo, settings, k);
        if k in AllKeys(schema) {
          settings := settings[k := Read(KindOf(schema, k), config[k])];
        }
        if Undecodable(schema, k, config[k]) {
          ok := false;
        }
        todo := todo - {k};
      }
      LoadedCompletely(schema, text, settings);
    }

    method Save() returns (text: string)
      requires WellTyped(schema, settings)
      ensures text == SavedText(schema, settings)
    {
      text := "";
      var rows := schema.saved;
      for i := 0 to |rows|
        invariant Keys(rows[..i]) <= AllKeys(schema)
        invariant text == Unlines(SavedLines(schema, rows[..i], settings))
      {
        assert rows[i] in rows;
        var lines := LineFor(schema, settings, rows[i].key);
        SavedOneMore(schema, rows, i, settings);
        UnlinesAppends(SavedLines(schema, rows[..i], settings), lines);
        text := text + Unlines(lines);
      }
      assert rows[..|rows|] == rows;
    }
  }

  /** The options not in `todo` have been read; the others are as they start. */
  predicate LoadedSoFar(schema: Schema, config: map<string, string>, todo: set<string>, settings: Params) {
    && settings.Keys == AllKeys(schema)
    && forall k | k in settings ::
         settings[k] == if k in todo then Default(KindOf(schema, k)) else LoadedValue(schema, config, k)
  }

  lemma LoadOneMore(schema: Schema, config: map<string, string>, todo: set<string>, settings: Params, k: string)
    requires k in todo && todo <= config.Keys && LoadedSoFar(schema, config, todo, settings)
    ensures var read := if k in AllKeys(schema) then settings[k := Read(KindOf(schema, k), config[k])] else settings;
            LoadedSoFar(schema, config, todo - {k}, read)
  {
  }

  lemma LoadedCompletely(schema: Schema, text: string, settings: Params)
    requires LoadedSoFar(schema, Parsed(text), {}, settings)
    ensures if exists k | k in Parsed(text) :: Undecodable(schema, k, Parsed(text)[k]) then Loaded(schema, text) == None
            else Loaded(schema, text) == Some(settings)
  {
    var config := Parsed(text);
    assert settings == map k | k in AllKeys(schema) :: LoadedValue(schema, config, k);
  }

  lemma SavedOneMore(schema: Schema, rows: seq<Row>, i: nat, p: Params)
    requires WellTyped(schema, p) && Keys(rows) <= AllKeys(schema) && i < |rows|
    ensures Keys(rows[..i]) <= AllKeys(schema) && Keys(rows[..i + 1]) <= AllKeys(schema) && rows[i].key in p
    ensures SavedLines(schema, rows[..i + 1], p) == SavedLines(schema, rows[..i], p) + LineFor(schema, p, rows[i].key)
  {
    assert rows[i] in rows;
    assert forall r | r in rows[..i + 1] :: r in rows;
    assert forall r | r in rows[..i] :: r in rows;
    assert rows[..i + 1][..i] == rows[..i];
  }

  lemma {:induction false} UnlinesAppends(a: seq<string>, b: seq<string>)
    ensures Unlines(a + b) == Unlines(a) + Unlines(b)
  {
    if a == [] {
      assert a + b == b;
    } else {
      UnlinesAppends(a[1..], b);
      assert (a + b)[1..] == a[1..] + b;
    }
  }

  // ----- What is saved is what is loaded -----

  predicate GoodRows(rows: seq<Row>) {
    (forall i | 0 <= i < |rows| :: GoodKey(rows[i].key)) && forall i | 0 <= i < |rows| :: GoodKind(rows[i].kind)
  }

  predicate GoodSchema(schema: Schema) {
    GoodRows(schema.saved) && GoodRows(schema.readOnly)
  }

  lemma KnownKeyIsGood(schema: Schema, key: string)
    requires GoodSchema(schema) && key in AllKeys(schema)
    ensures GoodKey(key) && GoodKind(KindOf(schema, key))
  {
    var row := Row(key, KindOf(schema, key));
    if row in schema.saved {
      var i :| 0 <= i < |schema.saved| && schema.saved[i] == row;
    } else {
      var i :| 0 <= i < |schema.readOnly| && schema.readOnly[i] == row;
    }
  }

  /** All values of these options can be kept. */
  predicate AllKeepable(schema: Schema, p: Params, keys: set<string>)
    requires WellTyped(schema, p) && keys <= p.Keys
  {
    forall k | k in keys :: Keepable(KindOf(schema, k), p[k])
  }

  /** Whether an option leaves a value in the file, and which. */
  function Kept(schema: Schema, p: Params, key: string): Option<string>
    requires WellTyped(schema, p) && key in p
  {
    var line := Print(KindOf(schema, key), p[key]);
    if line == Some("") then None else line
  }

  lemma KeptReadsBack(schema: Schema, p: Params, key: string)
    requires GoodSchema(schema) && WellTyped(schema, p) && key in p && Keepable(KindOf(schema, key), p[key])
    ensures match Kept(schema, p, key)
            case None => p[key] == Default(KindOf(schema, key))
            case Some(v) => Clean(v) && Read(KindOf(schema, key), v) == p[key] && !Undecodable(schema, key, v)
  {
    KnownKeyIsGood(schema, key);
    ValueReadsBack(KindOf(schema, key), p[key]);
    if KindOf(schema, key).SecretKind? {
      SecretReadsBack(p[key].text);
    }
  }

  lemma LineAddsItsValue(schema: Schema, p: Params, key: string, lines: seq<string>)
    requires GoodSchema(schema) && WellTyped(schema, p) && key in p && Keepable(KindOf(schema, key), p[key])
    ensures forall l | l in LineFor(schema, p, key) :: '\n' !in l && WithoutReturn(l) == l
    ensures ParseLines(lines + LineFor(schema, p, key))
            == match Kept(schema, p, key) case None => ParseLines(lines) case Some(v) => ParseLines(lines)[key := v]
  {
    KnownKeyIsGood(schema, key);
    KeptReadsBack(schema, p, key);
    match Print(KindOf(schema, key), p[key])
    case None =>
      assert lines + LineFor(schema, p, key) == lines;
    case Some(v) =>
      LineReadsBack(key, v);
      assert (lines + [Line(key, v)])[..|lines|] == lines;
  }

  lemma LastKey(rows: seq<Row>)
    requires rows != []
    ensures Keys(rows) == Keys(rows[..|rows| - 1]) + {rows[|rows| - 1].key}
  {
    assert rows == rows[..|rows| - 1] + [rows[|rows| - 1]];
    assert rows[|rows| - 1] in rows;
  }

  lemma {:induction false} SavedLinesReadBack(schema: Schema, rows: seq<Row>, p: Params)
    requires GoodSchema(schema) && WellTyped(schema, p) && Keys(rows) <= AllKeys(schema)
    requires AllKeepable(schema, p, Keys(rows))
    ensures forall l | l in SavedLines(schema, rows, p) :: '\n' !in l && WithoutReturn(l) == l
    ensures var config := ParseLines(SavedLines(schema, rows, p));
            && config.Keys <= Keys(rows)
            && forall k | k in Keys(rows) ::
                 match Kept(schema, p, k) case None => k !in config case Some(v) => k in config && config[k] == v
  {
    if rows != [] {
      var front, last := rows[..|rows| - 1], rows[|rows| - 1];
      LastKey(rows);
      SavedLinesReadBack(schema, front, p);
      LineAddsItsValue(schema, p, last.key, SavedLines(schema, front, p));
    }
  }

  /** The settings that a file holds; the others start afresh. */
  function Persisted(schema: Schema, p: Params): Params
    requires WellTyped(schema, p)
  {
    map k | k in AllKeys(schema) :: if k in Keys(schema.saved) then p[k] else Default(KindOf(schema, k))
  }

  /** The configuration that a saved file parses to. */
  lemma SavedConfig(schema: Schema, p: Params, config: map<string, string>)
    requires GoodSchema(schema) && WellTyped(schema, p) && AllKeepable(schema, p, Keys(schema.saved))
    requires config == Parsed(SavedText(schema, p))
    ensures forall k | k in config :: !Undecodable(schema, k, config[k])
    ensures forall k | k in Keys(schema.saved) :: LoadedValue(schema, config, k) == p[k]
    ensures config.Keys <= Keys(schema.saved)
  {
    var lines := SavedLines(schema, schema.saved, p);
    SavedLinesReadBack(schema, schema.saved, p);
    LinesReadBack(lines);
    assert config == ParseLines(lines);
    forall k | k in Keys(schema.saved)
      ensures LoadedValue(schema, config, k) == p[k]
      ensures k in config ==> !Undecodable(schema, k, config[k])
    {
      KeptReadsBack(schema, p, k);
    }
  }

  lemma SaveThenLoad(schema: Schema, p: Params)
    requires GoodSchema(schema) && WellTyped(schema, p) && AllKeepable(schema, p, Keys(schema.saved))
    ensures Loaded(schema, SavedText(schema, p)) == Some(Persisted(schema, p))
  {
    SavedConfig(schema, p, Parsed(SavedText(schema, p)));
    LoadedCompletely(schema, SavedText(schema, p), Persisted(schema, p));
  }

  /** Whatever a file says, what is loaded from it is well typed and can be kept. */
  lemma LoadedIsKeepable(schema: Schema, text: string)
    requires GoodSchema(schema) && Loaded(schema, text).Some?
    ensures var p := Loaded(schema, text).value; WellTyped(schema, p) && AllKeepable(schema, p, AllKeys(schema))
  {
    var config := Parsed(text);
    OnlyCleanValues(text);
    forall k | k in AllKeys(schema)
      ensures Typed(KindOf(schema, k), LoadedValue(schema, config, k))
      ensures Keepable(KindOf(schema, k), LoadedValue(schema, config, k))
    {
      KnownKeyIsGood(schema, k);
      if k in config {
        ReadIsKeepable(KindOf(schema, k), config[k]);
      } else {
        DefaultIsKeepable(KindOf(schema, k));
      }
    }
  }

  /**
   * For settings of the right types: loading what was saved gives back every saved option, exactly when each of them
   * is something that a line can keep.
   */
  lemma SaveLoadIff(schema: Schema, p: Params)
    requires GoodSchema(schema) && WellTyped(schema, p)
    ensures Loaded(schema, SavedText(schema, p)) == Some(Persisted(schema, p))
            <==> AllKeepable(schema, p, Keys(schema.saved))
  {
    if AllKeepable(schema, p, Keys(schema.saved)) {
      SaveThenLoad(schema, p);
    }
    if Loaded(schema, SavedText(schema, p)) == Some(Persisted(schema, p)) {
      LoadedIsKeepable(schema, SavedText(schema, p));
      forall k | k in Keys(schema.saved)
        ensures Keepable(KindOf(schema, k), p[k])
      {
        assert Persisted(schema, p)[k] == p[k];
      }
    }
  }

  /** Loading any file at all, saving and loading again changes nothing that is saved. */
  lemma LoadSaveLoad(schema: Schema, text: string)
    requires GoodSchema(schema) && Loaded(schema, text).Some?
    ensures var p := Loaded(schema, text).value;
            WellTyped(schema, p) && Loaded(schema, SavedText(schema, p)) == Some(Persisted(schema, p))
  {
    LoadedIsKeepable(schema, text);
    SaveThenLoad(schema, Loaded(schema, text).value);
  }

  // ----- The options of a profile -----

  const DEFAULT_NAME := "Default"

  const ACCOUNT_ROWS: seq<Row> := [
    Row("profile-name", PlainKind(DEFAULT_NAME)),
    Row("profile-id", IdentityKind),
    Row("server-name", PlainKind("")),
    Row("user-name", PlainKind("")),
    Row("password", SecretKind),
    Row("password-factor", CountKind(U64_LIMIT, 1))]

  const DNS_ROWS: seq<Row> := [
    Row("search-domains", WordsKind),
    Row("ignore-search-domains", WordsKind),
    Row("dns-servers", HostsKind),
    Row("ignore-dns-servers", HostsKind)]

  const ROUTE_ROWS: seq<Row> := [
    Row("default-route", FlagKind),
    Row("no-routing", FlagKind),
    Row("add-routes", NetsKind),
    Row("ignore-routes", NetsKind)]

  const TUNNEL_ROWS: seq<Row> := [
    Row("no-dns", FlagKind),
    Row("no-split-dns", FlagKind),
    Row("ignore-server-cert", FlagKind),
    Row("tunnel-type", ChoiceKind(TunnelType)),
    Row("ca-cert", WordsKind)]

  const CERTIFICATE_ROWS: seq<Row> := [
    Row("login-type", PlainKind("")),
    Row("cert-type", ChoiceKind(CertType)),
    Row("cert-path", MaybeKind),
    Row("cert-password", MaybeKind),
    Row("cert-id", MaybeKind)]

  const SESSION_ROWS: seq<Row> := [
    Row("if-name", MaybeKind),
    Row("keychain", FlagKind),
    Row("ike-lifetime", SpanKind(28800)),
    Row("ike-persist", FlagKind)]

  const CLIENT_ROWS: seq<Row> := [
    Row("log-level", PlainKind("off")),
    Row("client-mode", PlainKind("secure_connect")),
    Row("no-keepalive", FlagKind),
    Row("icon-theme", ChoiceKind(ColorTheme)),
    Row("set-routing-domains", FlagKind)]

  const DESKTOP_ROWS: seq<Row> := [
    Row("port-knock", FlagKind),
    Row("locale", MaybeKind),
    Row("auto-connect", FlagKind),
    Row("ip-lease-time", LeaseKind),
    Row("disable-ipv6", FlagKind)]

  const TRANSPORT_ROWS: seq<Row> := [
    Row("mtu", CountKind(U16_LIMIT, 1350)),
    Row("transport-type", ChoiceKind(TransportType)),
    Row("allow-forwarding", FlagKind),
    Row("tls-version-max", ChoiceKind(TlsVersion)),
    Row("client-logging-data", MaybeKind)]

  /** The lines of a saved file, in the order they are written. */
  const SAVED: seq<Row> :=
    ACCOUNT_ROWS + DNS_ROWS + ROUTE_ROWS + TUNNEL_ROWS + CERTIFICATE_ROWS + SESSION_ROWS + CLIENT_ROWS + DESKTOP_ROWS
    + TRANSPORT_ROWS

  /** Options that are read but never written. */
  const READ_ONLY: seq<Row> := [Row("mfa-code", MaybeKind)]

  const PROFILE: Schema := Schema(SAVED, READ_ONLY)

  lemma DefaultTextsAreClean()
    ensures GoodKind(PlainKind("off")) && GoodKind(PlainKind("secure_connect"))
  {
    LettersAreClean("off");
    LettersAreClean("secure_connect");
  }

  lemma AccountRowsAreGood()
    ensures GoodRows(ACCOUNT_ROWS)
  {
    assert Clean(DEFAULT_NAME);
    forall i | 0 <= i < |ACCOUNT_ROWS|
      ensures GoodKey(ACCOUNT_ROWS[i].key)
    {
    }
  }

  lemma DnsRowsAreGood()
    ensures GoodRows(DNS_ROWS)
  {
    forall i | 0 <= i < |DNS_ROWS|
      ensures GoodKey(DNS_ROWS[i].key)
    {
    }
  }

  lemma RouteRowsAreGood()
    ensures GoodRows(ROUTE_ROWS)
  {
    forall i | 0 <= i < |ROUTE_ROWS|
      ensures GoodKey(ROUTE_ROWS[i].key)
    {
    }
  }

  lemma TunnelRowsAreGood()
    ensures GoodRows(TUNNEL_ROWS)
  {
    forall i | 0 <= i < |TUNNEL_ROWS|
      ensures GoodKey(TUNNEL_ROWS[i].key)
    {
    }
  }

  lemma CertificateRowsAreGood()
    ensures GoodRows(CERTIFICATE_ROWS)
  {
    forall i | 0 <= i < |CERTIFICATE_ROWS|
      ensures GoodKey(CERTIFICATE_ROWS[i].key)
    {
    }
  }

  lemma SessionRowsAreGood()
    ensures GoodRows(SESSION_ROWS)
  {
    forall i | 0 <= i < |SESSION_ROWS|
      ensures GoodKey(SESSION_ROWS[i].key)
    {
    }
  }

  lemma ClientRowsAreGood()
    ensures GoodRows(CLIENT_ROWS)
  {
    DefaultTextsAreClean();
    forall i | 0 <= i < |CLIENT_ROWS|
      ensures GoodKind(CLIENT_ROWS[i].kind)
    {
    }
    forall i | 0 <= i < |CLIENT_ROWS|
      ensures GoodKey(CLIENT_ROWS[i].key)
    {
    }
  }

  lemma DesktopRowsAreGood()
    ensures GoodRows(DESKTOP_ROWS)
  {
    forall i | 0 <= i < |DESKTOP_ROWS|
      ensures GoodKey(DESKTOP_ROWS[i].key)
    {
    }
  }

  lemma TransportRowsAreGood()
    ensures GoodRows(TRANSPORT_ROWS)
  {
    forall i | 0 <= i < |TRANSPORT_ROWS|
      ensures GoodKey(TRANSPORT_ROWS[i].key)
    {
    }
  }

  /** The source's options satisfy what the results above ask of a schema. */
  lemma ProfileIsGood()
    ensures GoodSchema(PROFILE)
  {
    AccountRowsAreGood();
    DnsRowsAreGood();
    RouteRowsAreGood();
    TunnelRowsAreGood();
    CertificateRowsAreGood();
    SessionRowsAreGood();
    ClientRowsAreGood();
    DesktopRowsAreGood();
    TransportRowsAreGood();
  }

  /** An empty file leaves every option at its default. */
  lemma EmptyFileGivesDefaults(schema: Schema, key: string)
    requires key in AllKeys(schema)
    ensures Loaded(schema, "") == Some(Defaults(schema))
    ensures match KindOf(schema, key)
            case PlainKind(text) => Defaults(schema)[key] == Plain(text)
            case CountKind(_, start) => Defaults(schema)[key] == Count(start)
            case SpanKind(seconds) => Defaults(schema)[key] == Span(Duration(seconds, 0))
            case FlagKind => Defaults(schema)[key] == Flag(false)
            case ChoiceKind(_) => Defaults(schema)[key] == Choice(0)
            case _ => true
  {
    assert Parsed("") == map[];
    assert Loaded(schema, "").value == Defaults(schema);
  }

  /** The options with a default of their own. */
  lemma OwnDefaults()
    ensures Row("profile-name", PlainKind("Default")) in ACCOUNT_ROWS
    ensures Row("password-factor", CountKind(0x1_0000_0000_0000_0000, 1)) in ACCOUNT_ROWS
    ensures Row("ike-lifetime", SpanKind(28800)) in SESSION_ROWS
    ensures Row("log-level", PlainKind("off")) in CLIENT_ROWS
    ensures Row("client-mode", PlainKind("secure_connect")) in CLIENT_ROWS
    ensures Row("mtu", CountKind(0x1_0000, 1350)) in TRANSPORT_ROWS
  {
    assert ACCOUNT_ROWS[0].kind == PlainKind("Default") && ACCOUNT_ROWS[5].kind.start == 1;
    assert SESSION_ROWS[2].kind == SpanKind(28800);
    assert CLIENT_ROWS[0].kind == PlainKind("off") && CLIENT_ROWS[1].kind == PlainKind("secure_connect");
    assert TRANSPORT_ROWS[0].kind.start == 1350;
  }
}
