/**
  The program's own metrics page, Write of internal/metrics/registry.go: whatever the
  workloads are called, scraping it finds for every target the numbers recorded for it.
  */
module Registry {
  import opened Telemetry
  import opened Text
  import opened Seqs
  import opened PromText
  import opened Buckets
  import opened Exposition
  import opened Pipeline
  import opened Accuracy

  datatype Target = Target(workload: string, runtime: string)

  datatype Stats = Stats(scrapes: nat, errors: nat, lastDurationMs: real, lastSuccess: Option<int>, missing: nat)

  datatype DatabaseStats = DatabaseStats(written: nat, failed: nat, dropped: nat)

  datatype AlertStats = AlertStats(sent: nat, failed: nat, dropped: nat, suppressed: nat, open: nat)

  /** What the page shows. */
  datatype State = State(
    version: string,
    commit: string,
    goVersion: string,
    uptime: real,
    targets: map<Target, Stats>,
    recommendations: map<string, nat>,
    active: nat,
    snapshots: nat,
    database: Option<DatabaseStats>,
    alerts: Option<AlertStats>)

  datatype Family =
    | BuildInfo | Uptime
    | Scrapes | ScrapeErrors | ScrapeDuration | LastScrape | MissingMetrics
    | Snapshots | Recommendations | ActiveRecommendations
    | DatabaseWrites | DatabaseFailures | DatabaseDropped
    | AlertsSent | AlertFailures | AlertsDropped | AlertsSuppressed | AlertsOpen

  function Name(f: Family): string {
    "ifa_" + Suffix(f)
  }

  function Suffix(f: Family): string {
    match f
    case BuildInfo => "build_info"
    case Uptime => "uptime_seconds"
    case Scrapes => "scrapes_total"
    case ScrapeErrors => "scrape_errors_total"
    case ScrapeDuration => "scrape_duration_milliseconds"
    case LastScrape => "last_successful_scrape" + "_timestamp_seconds"
    case MissingMetrics => "target_missing_metrics"
    case Snapshots => "store_snapshots"
    case Recommendations => "recommendations_total"
    case ActiveRecommendations => "active_recommendations"
    case DatabaseWrites => "database_writes_total"
    case DatabaseFailures => "database_write_failures_total"
    case DatabaseDropped => "database_dropped_total"
    case AlertsSent => "alerts_sent_total"
    case AlertFailures => "alert_failures_total"
    case AlertsDropped => "alerts_dropped_total"
    case AlertsSuppressed => "alerts_suppressed_total"
    case AlertsOpen => "alerts_open"
  }

  /** Tells the names apart by their length, and by one letter where that is not enough. */
  function FamilyOf(name: string): Family
    requires |name| > 4
  {
    match |name|
    case 14 => BuildInfo
    case 15 => AlertsOpen
    case 17 => Scrapes
    case 18 => Uptime
    case 19 => Snapshots
    case 21 => AlertsSent
    case 23 => ScrapeErrors
    case 24 => if name[11] == 'a' then AlertFailures else AlertsDropped
    case 25 => if name[4] == 'r' then Recommendations else DatabaseWrites
    case 26 =>
      if name[4] == 't' then MissingMetrics
      else if name[4] == 'a' then ActiveRecommendations
      else DatabaseDropped
    case 27 => AlertsSuppressed
    case 32 => ScrapeDuration
    case 33 => DatabaseFailures
    case _ => LastScrape
  }

  lemma NamesAreDistinct(f: Family)
    ensures |Name(f)| > 4 && FamilyOf(Name(f)) == f
  {
  }

  predicate NameChars(s: string) {
    forall i :: 0 <= i < |s| ==> NameChar(s[i], false)
  }

  lemma CoreSuffixes(f: Family)
    requires f.BuildInfo? || f.Uptime? || f.Snapshots? || f.Recommendations? || f.ActiveRecommendations?
    ensures NameChars(Suffix(f))
  {
  }

  lemma TargetSuffixes(f: Family)
    requires IsPerTarget(f)
    ensures NameChars(Suffix(f))
  {
    if f.LastScrape? {
      LongSuffix();
    }
  }

  lemma LongSuffix()
    ensures NameChars(Suffix(LastScrape))
  {
    assert NameChars("last_successful_scrape") && NameChars("_timestamp_seconds");
  }

  lemma DatabaseSuffixes(f: Family)
    requires f.DatabaseWrites? || f.DatabaseFailures? || f.DatabaseDropped?
    ensures NameChars(Suffix(f))
  {
  }

  lemma AlertSuffixes(f: Family)
    requires f.AlertsSent? || f.AlertFailures? || f.AlertsDropped? || f.AlertsSuppressed? || f.AlertsOpen?
    ensures NameChars(Suffix(f))
  {
  }

  lemma NamesAreValid(f: Family)
    ensures ValidMetricName(Name(f)) && '\n' !in Name(f)
  {
    match f {
      case BuildInfo | Uptime | Snapshots | Recommendations | ActiveRecommendations => CoreSuffixes(f);
      case DatabaseWrites | DatabaseFailures | DatabaseDropped => DatabaseSuffixes(f);
      case AlertsSent | AlertFailures | AlertsDropped | AlertsSuppressed | AlertsOpen => AlertSuffixes(f);
      case _ => TargetSuffixes(f);
    }
    IfaIsValid(Suffix(f));
    NamesHaveNoNewline(Name(f));
  }

  lemma IfaIsValid(s: string)
    requires NameChars(s)
    ensures ValidMetricName("ifa_" + s)
  {
  }

  // ---------------------------------------------------------------------------
  // The page
  // ---------------------------------------------------------------------------

  /** How integers and decimals are printed. */
  datatype Numbers = Numbers(whole: int -> string, decimal: real -> string)

  /** What was recorded for a target in the families that show a count or a time. */
  function TargetCount(f: Family, s: Stats): int {
    match f
    case Scrapes => s.scrapes
    case ScrapeErrors => s.errors
    case LastScrape => if s.lastSuccess.Some? then s.lastSuccess.value else 0
    case _ => s.missing
  }

  function TargetValue(num: Numbers, f: Family, s: Stats): string {
    if f.ScrapeDuration? then num.decimal(s.lastDurationMs) else num.whole(TargetCount(f, s))
  }

  function TargetLabels(t: Target): seq<(string, string)> {
    [("workload", t.workload), ("runtime", t.runtime)]
  }

  function TargetLine(num: Numbers, f: Family, t: Target, s: Stats): Entry {
    Labelled(Name(f), TargetLabels(t), TargetValue(num, f, s))
  }

  function SeverityLine(num: Numbers, severity: string, n: nat): Entry {
    Labelled(Name(Recommendations), [("severity", severity)], num.whole(n))
  }

  function BuildLine(num: Numbers, st: State): Entry {
    Labelled(Name(BuildInfo), [("version", st.version), ("commit", st.commit), ("go_version", st.goVersion)],
             num.whole(1))
  }

  predicate IsPerTarget(f: Family) {
    f.Scrapes? || f.ScrapeErrors? || f.ScrapeDuration? || f.LastScrape? || f.MissingMetrics?
  }

  /** The one number of a family that has a single series without labels. */
  function Single(num: Numbers, st: State, f: Family): string {
    match f
    case Uptime => num.decimal(st.uptime)
    case Snapshots => num.whole(st.snapshots)
    case ActiveRecommendations => num.whole(st.active)
    case DatabaseWrites => num.whole(if st.database.Some? then st.database.value.written else 0)
    case DatabaseFailures => num.whole(if st.database.Some? then st.database.value.failed else 0)
    case DatabaseDropped => num.whole(if st.database.Some? then st.database.value.dropped else 0)
    case AlertsSent => num.whole(if st.alerts.Some? then st.alerts.value.sent else 0)
    case AlertFailures => num.whole(if st.alerts.Some? then st.alerts.value.failed else 0)
    case AlertsDropped => num.whole(if st.alerts.Some? then st.alerts.value.dropped else 0)
    case AlertsSuppressed => num.whole(if st.alerts.Some? then st.alerts.value.suppressed else 0)
    case _ => num.whole(if st.alerts.Some? then st.alerts.value.open else 0)
  }

  /** The targets and the severities, in the order they are printed. */
  datatype Listing = Listing(targets: seq<Target>, severities: seq<string>)

  ghost predicate ListingOk(st: State, ls: Listing) {
    && (forall t :: t in ls.targets <==> t in st.targets)
    && (forall i, j :: 0 <= i < j < |ls.targets| ==> ls.targets[i] != ls.targets[j])
    && (forall s :: s in ls.severities <==> s in st.recommendations)
    && (forall i, j :: 0 <= i < j < |ls.severities| ==> ls.severities[i] != ls.severities[j])
  }

  function LinesOf(num: Numbers, st: State, ls: Listing, f: Family): seq<Entry>
    requires ListingOk(st, ls)
  {
    if IsPerTarget(f) then
      seq(|ls.targets|, i requires 0 <= i < |ls.targets| =>
        TargetLine(num, f, ls.targets[i], st.targets[ls.targets[i]]))
    else if f.Recommendations? then
      seq(|ls.severities|, i requires 0 <= i < |ls.severities| =>
        SeverityLine(num, ls.severities[i], st.recommendations[ls.severities[i]]))
    else if f.BuildInfo? then
      [BuildLine(num, st)]
    else [Plain(Name(f), Single(num, st, f))]
  }

  /** The families a page shows: those of the optional parts only when they are configured. */
  function Shown(st: State): seq<Family> {
    Always() + (if st.database.Some? then WithDatabase() else []) + if st.alerts.Some? then WithAlerts() else []
  }

  function Always(): seq<Family> {
    [BuildInfo, Uptime, Scrapes, ScrapeErrors, ScrapeDuration, LastScrape, MissingMetrics,
     Snapshots, Recommendations, ActiveRecommendations]
  }

  function WithDatabase(): seq<Family> {
    [DatabaseWrites, DatabaseFailures, DatabaseDropped]
  }

  function WithAlerts(): seq<Family> {
    [AlertsSent, AlertFailures, AlertsDropped, AlertsSuppressed, AlertsOpen]
  }

  function Written(num: Numbers, help: Family -> string, st: State, ls: Listing, fs: seq<Family>): seq<Entry>
    requires ListingOk(st, ls)
  {
    if fs == [] then []
    else
      Written(num, help, st, ls, fs[..|fs| - 1]) + Part(num, help, st, ls, fs[|fs| - 1])
  }

  function Part(num: Numbers, help: Family -> string, st: State, ls: Listing, f: Family): seq<Entry>
    requires ListingOk(st, ls)
  {
    [Comment("HELP " + help(f)), Comment("TYPE " + Name(f))] + LinesOf(num, st, ls, f)
  }

  // ---------------------------------------------------------------------------
  // Scraping it back
  // ---------------------------------------------------------------------------

  /** Integers are read back as they were, decimals to three places. */
  ghost predicate NumbersOk(pv: ValueParser, num: Numbers) {
    && (forall n: int :: pv(num.whole(n)) == Some(Finite(n as real)) && FieldOk(num.whole(n)))
    && (forall x: real :: ReadWithin(pv(num.decimal(x)), x, 0.0005) && FieldOk(num.decimal(x)))
  }

  predicate ReadWithin(v: Option<Float>, x: real, tolerance: real) {
    v.Some? && v.value.Finite? && x - tolerance <= v.value.r <= x + tolerance
  }

  /** Such a notation exists: here, tagged unary numbers of units and of thousandths. */
  lemma SomeNumbersReadBack()
    ensures exists pf: ParseFloat, num: Numbers :: NumbersOk(ValueParserOf(pf), num)
  {
    var pv, num := ValueParserOf(ReadTagged()), Tagged();
    forall n: int
      ensures pv(num.whole(n)) == Some(Finite(n as real)) && FieldOk(num.whole(n))
    {
      WholeIsRead(n);
    }
    forall x: real
      ensures ReadWithin(pv(num.decimal(x)), x, 0.0005) && FieldOk(num.decimal(x))
    {
      DecimalIsRead(x);
    }
    assert NumbersOk(pv, num);
  }

  function Signed(plus: char, minus: char, n: int): string {
    if n >= 0 then Unary(plus, n) else Unary(minus, -n)
  }

  function Thousandths(x: real): int {
    (x * 1000.0 + 0.5).Floor
  }

  function Tagged(): Numbers {
    Numbers(n => Signed('p', 'm', n), x => Signed('q', 'k', Thousandths(x)))
  }

  function ReadTagged(): ParseFloat {
    (s: string) =>
      if s == "" then None
      else
        var n := (|s| - 1) as real;
        if s[0] == 'p' then Some(Finite(n)) else if s[0] == 'm' then Some(Finite(-n))
        else if s[0] == 'q' then Some(Finite(n / 1000.0)) else if s[0] == 'k' then Some(Finite(-n / 1000.0))
        else None
  }

  lemma UnaryIsField(tag: char, n: nat)
    requires tag in {'p', 'm', 'q', 'k'}
    ensures FieldOk(Unary(tag, n))
    ensures ValueParserOf(ReadTagged())(Unary(tag, n)) == ReadTagged()(Unary(tag, n))
  {
    var s := Unary(tag, n);
    assert s[0] == tag && forall i :: 0 < i < |s| ==> s[i] == '1';
    assert "+Inf"[0] != tag && "Inf"[0] != tag && "inf"[0] != tag && "+inf"[0] != tag;
    assert "-Inf"[0] != tag && "-inf"[0] != tag && "NaN"[0] != tag && "nan"[0] != tag && "NAN"[0] != tag;
  }

  lemma WholeIsRead(n: int)
    ensures ValueParserOf(ReadTagged())(Tagged().whole(n)) == Some(Finite(n as real))
    ensures FieldOk(Tagged().whole(n))
  {
    UnaryIsField(if n >= 0 then 'p' else 'm', if n >= 0 then n else -n);
  }

  lemma DecimalIsRead(x: real)
    ensures ReadWithin(ValueParserOf(ReadTagged())(Tagged().decimal(x)), x, 0.0005)
    ensures FieldOk(Tagged().decimal(x))
  {
    var k := Thousandths(x);
    UnaryIsField(if k >= 0 then 'q' else 'k', if k >= 0 then k else -k);
    assert k as real <= x * 1000.0 + 0.5 < k as real + 1.0;
    assert ValueParserOf(ReadTagged())(Tagged().decimal(x)) == Some(Finite(k as real / 1000.0));
  }

  predicate FieldOk(value: string) {
    ValueOk(value) && '{' !in value
  }

  /** A line of the family that can be read back. */
  predicate LineOk(pv: ValueParser, f: Family, e: Entry) {
    EntryOk(pv, e) && (e.Plain? || e.Labelled?) && e.name == Name(f)
  }

  lemma TargetLineOk(pv: ValueParser, num: Numbers, f: Family, t: Target, s: Stats)
    requires NumbersOk(pv, num)
    ensures LineOk(pv, f, TargetLine(num, f, t, s))
  {
    NamesAreValid(f);
    LabelNamesAreOk();
    assert KeysOk(TargetLabels(t));
  }

  lemma LabelNamesAreOk()
    ensures KeyOk("workload") && KeyOk("runtime")
  {
  }

  lemma SeverityLineOk(pv: ValueParser, num: Numbers, severity: string, n: nat)
    requires NumbersOk(pv, num)
    ensures LineOk(pv, Recommendations, SeverityLine(num, severity, n))
  {
    NamesAreValid(Recommendations);
    assert KeyOk("severity");
  }

  lemma BuildLineOk(pv: ValueParser, num: Numbers, st: State)
    requires NumbersOk(pv, num)
    ensures LineOk(pv, BuildInfo, BuildLine(num, st))
  {
    NamesAreValid(BuildInfo);
    assert KeyOk("version") && KeyOk("commit") && KeyOk("go_version");
  }

  lemma SingleLineOk(pv: ValueParser, num: Numbers, st: State, f: Family)
    requires NumbersOk(pv, num)
    ensures LineOk(pv, f, Plain(Name(f), Single(num, st, f)))
  {
    NamesAreValid(f);
  }

  ghost predicate LinesOk(pv: ValueParser, f: Family, lines: seq<Entry>) {
    forall i :: 0 <= i < |lines| ==> LineOk(pv, f, lines[i])
  }

  lemma LinesAreOk(pv: ValueParser, num: Numbers, st: State, ls: Listing, f: Family)
    requires NumbersOk(pv, num) && ListingOk(st, ls)
    ensures LinesOk(pv, f, LinesOf(num, st, ls, f)) && EntriesOk(pv, LinesOf(num, st, ls, f))
  {
    var lines := LinesOf(num, st, ls, f);
    forall i | 0 <= i < |lines|
      ensures LineOk(pv, f, lines[i])
    {
      if IsPerTarget(f) {
        TargetLineOk(pv, num, f, ls.targets[i], st.targets[ls.targets[i]]);
      } else if f.Recommendations? {
        SeverityLineOk(pv, num, ls.severities[i], st.recommendations[ls.severities[i]]);
      } else if f.BuildInfo? {
        BuildLineOk(pv, num, st);
      } else {
        SingleLineOk(pv, num, st, f);
      }
    }
  }

  /** The samples a family's lines mean, one a line; none for another name. */
  lemma {:induction false} LinesMean(pv: ValueParser, f: Family, lines: seq<Entry>, name: string)
    requires LinesOk(pv, f, lines) && EntriesOk(pv, lines)
    ensures name == Name(f) ==>
      && |Meant(pv, lines, name)| == |lines|
      && forall i :: 0 <= i < |lines| ==> Series(Meant(pv, lines, name)[i]) == Meaning(pv, lines[i])
    ensures name != Name(f) ==> Meant(pv, lines, name) == []
    decreases |lines|
  {
    if lines != [] {
      assert LineOk(pv, f, lines[0]);
      LinesMean(pv, f, lines[1..], name);
    }
  }

  lemma CommentMeansNothing(pv: ValueParser, e: Entry, name: string)
    requires e.Comment? && EntryOk(pv, e)
    ensures Meant(pv, [e], name) == []
  {
    assert Contribution(Meaning(pv, e), name) == [];
    assert [e][1..] == [];
  }

  lemma HeaderMeansNothing(pv: ValueParser, help: string, kind: string, name: string)
    requires '\n' !in help && '\n' !in kind
    ensures
      var header := [Comment("HELP " + help), Comment("TYPE " + kind)];
      EntriesOk(pv, header) && Meant(pv, header, name) == []
  {
    var a, b := Comment("HELP " + help), Comment("TYPE " + kind);
    assert EntryOk(pv, a) && EntryOk(pv, b);
    CommentMeansNothing(pv, a, name);
    CommentMeansNothing(pv, b, name);
    MeantConcat(pv, [a], [b], name);
    assert [a] + [b] == [a, b];
  }

  lemma PartMeans(pv: ValueParser, num: Numbers, help: Family -> string, st: State, ls: Listing,
                  g: Family, f: Family)
    requires NumbersOk(pv, num) && ListingOk(st, ls) && '\n' !in help(g)
    ensures EntriesOk(pv, Part(num, help, st, ls, g)) && EntriesOk(pv, LinesOf(num, st, ls, g))
    ensures Meant(pv, Part(num, help, st, ls, g), Name(f)) ==
            if f == g then Meant(pv, LinesOf(num, st, ls, g), Name(f)) else []
  {
    var header, lines := [Comment("HELP " + help(g)), Comment("TYPE " + Name(g))], LinesOf(num, st, ls, g);
    NamesAreValid(g);
    NamesAreDistinct(f);
    NamesAreDistinct(g);
    HeaderMeansNothing(pv, help(g), Name(g), Name(f));
    LinesAreOk(pv, num, st, ls, g);
    LinesMean(pv, g, lines, Name(f));
    MeantConcat(pv, header, lines, Name(f));
  }

  /** Entries that hold just these samples of a name, or none of that name. */
  ghost predicate HoldsOnly(pv: ValueParser, entries: seq<Entry>, name: string, found: seq<Sample>, present: bool) {
    EntriesOk(pv, entries) && Meant(pv, entries, name) == if present then found else []
  }

  /** Of two parts of a page at most one holds the samples asked for. */
  lemma JoinMeans(pv: ValueParser, before: seq<Entry>, part: seq<Entry>, name: string, found: seq<Sample>,
                  inBefore: bool, inPart: bool)
    requires HoldsOnly(pv, before, name, found, inBefore) && HoldsOnly(pv, part, name, found, inPart)
    requires !(inBefore && inPart)
    ensures HoldsOnly(pv, before + part, name, found, inBefore || inPart)
  {
    MeantConcat(pv, before, part, name);
    ConcatNothing(found);
  }

  predicate NoRepeats(fs: seq<Family>) {
    forall i, j :: 0 <= i < j < |fs| ==> fs[i] != fs[j]
  }

  predicate HelpOk(help: Family -> string) {
    forall f :: '\n' !in help(f)
  }

  /** A page means, for each family it shows once, exactly that family's lines. */
  lemma {:induction false} WrittenMeans(pv: ValueParser, num: Numbers, help: Family -> string, st: State,
                                        ls: Listing, fs: seq<Family>, f: Family, found: seq<Sample>)
    requires NumbersOk(pv, num) && ListingOk(st, ls) && NoRepeats(fs) && HelpOk(help)
    requires HoldsOnly(pv, LinesOf(num, st, ls, f), Name(f), found, true)
    ensures HoldsOnly(pv, Written(num, help, st, ls, fs), Name(f), found, f in fs)
  {
    if fs != [] {
      var init, g := fs[..|fs| - 1], fs[|fs| - 1];
      WrittenMeans(pv, num, help, st, ls, init, f, found);
      PartMeans(pv, num, help, st, ls, g, f);
      assert f in fs <==> f in init || f == g;
      assert HoldsOnly(pv, Part(num, help, st, ls, g), Name(f), found, f == g);
      JoinMeans(pv, Written(num, help, st, ls, init), Part(num, help, st, ls, g), Name(f), found, f in init, f == g);
    }
  }

  lemma ShownOnce(st: State)
    ensures NoRepeats(Shown(st))
    ensures forall f :: IsPerTarget(f) ==> f in Shown(st)
  {
    var a := Always();
    var d := if st.database.Some? then WithDatabase() else [];
    var l := if st.alerts.Some? then WithAlerts() else [];
    assert a[2] == Scrapes && a[3] == ScrapeErrors && a[4] == ScrapeDuration && a[5] == LastScrape;
    assert a[6] == MissingMetrics;
    assert forall f :: IsPerTarget(f) ==> f in a;
    PartsAreDisjoint();
    JoinOnce(a, d);
    JoinOnce(a + d, l);
    assert Shown(st) == a + d + l;
  }

  predicate OfDatabase(f: Family) {
    f.DatabaseWrites? || f.DatabaseFailures? || f.DatabaseDropped?
  }

  predicate OfAlerts(f: Family) {
    f.AlertsSent? || f.AlertFailures? || f.AlertsDropped? || f.AlertsSuppressed? || f.AlertsOpen?
  }

  lemma AlwaysExactlyWhen(f: Family)
    ensures f in Always() <==> !OfDatabase(f) && !OfAlerts(f)
  {
    var a := Always();
    assert a[0] == BuildInfo && a[1] == Uptime && a[2] == Scrapes && a[3] == ScrapeErrors && a[4] == ScrapeDuration;
    assert a[5] == LastScrape && a[6] == MissingMetrics && a[7] == Snapshots && a[8] == Recommendations;
    assert a[9] == ActiveRecommendations;
  }

  lemma OptionalExactlyWhen(f: Family)
    ensures f in WithDatabase() <==> OfDatabase(f)
    ensures f in WithAlerts() <==> OfAlerts(f)
  {
    var d, l := WithDatabase(), WithAlerts();
    assert d[0] == DatabaseWrites && d[1] == DatabaseFailures && d[2] == DatabaseDropped;
    assert l[0] == AlertsSent && l[1] == AlertFailures && l[2] == AlertsDropped && l[3] == AlertsSuppressed;
    assert l[4] == AlertsOpen;
  }

  lemma InJoin(a: seq<Family>, b: seq<Family>, c: seq<Family>, f: Family)
    ensures f in a + b + c <==> f in a || f in b || f in c
  {
  }

  /** A page leaves out only what is not configured. */
  lemma ShownExactlyWhen(st: State, f: Family)
    ensures f in Shown(st) <==> (OfDatabase(f) ==> st.database.Some?) && (OfAlerts(f) ==> st.alerts.Some?)
  {
    AlwaysExactlyWhen(f);
    OptionalExactlyWhen(f);
    InJoin(Always(), if st.database.Some? then WithDatabase() else [], if st.alerts.Some? then WithAlerts() else [], f);
  }

  lemma PartsAreDisjoint()
    ensures NoRepeats(Always()) && NoRepeats(WithDatabase()) && NoRepeats(WithAlerts())
    ensures forall f :: f in Always() ==> f !in WithDatabase() && f !in WithAlerts()
    ensures forall f :: f in WithDatabase() ==> f !in WithAlerts()
  {
  }

  lemma JoinOnce(a: seq<Family>, b: seq<Family>)
    requires NoRepeats(a) && NoRepeats(b) && forall f :: f in a ==> f !in b
    ensures NoRepeats(a + b)
  {
    forall i, j | 0 <= i < j < |a + b|
      ensures (a + b)[i] != (a + b)[j]
    {
      if i < |a| <= j {
        assert a[i] in a && b[j - |a|] in b;
      }
    }
  }

  /**
    Whatever the workloads, runtimes and severities are called, parsing the page skips no
    line and finds in every family it shows exactly the lines written for it.
    */
  lemma RegistryPageIsRead(pv: ValueParser, num: Numbers, help: Family -> string, st: State, ls: Listing,
                           mf: Families, f: Family)
    requires NumbersOk(pv, num) && ListingOk(st, ls) && HelpOk(help)
    requires Holds(mf, pv, Lines(Page(Written(num, help, st, ls, Shown(st)))))
    ensures mf.linesSkipped == 0
    ensures EntriesOk(pv, LinesOf(num, st, ls, f))
    ensures Named(mf.samples, Name(f)) ==
            if f in Shown(st) then Meant(pv, LinesOf(num, st, ls, f), Name(f)) else []
  {
    ShownOnce(st);
    LinesAreOk(pv, num, st, ls, f);
    WrittenMeans(pv, num, help, st, ls, Shown(st), f, Meant(pv, LinesOf(num, st, ls, f), Name(f)));
    PageMeans(pv, Written(num, help, st, ls, Shown(st)), Name(f), mf);
  }

  function LabelsOf(t: Target): Labels {
    map["workload" := t.workload, "runtime" := t.runtime]
  }

  lemma TargetLabelsAre(t: Target)
    ensures WithLabels(map[], TargetLabels(t)) == LabelsOf(t)
  {
    var rest := TargetLabels(t)[1..];
    assert rest == [("runtime", t.runtime)] && rest[1..] == [];
    assert WithLabels(map["workload" := t.workload], rest) == LabelsOf(t);
  }

  /** The sample a target's line means. */
  function TargetSample(pv: ValueParser, num: Numbers, f: Family, t: Target, s: Stats): Sample
    requires NumbersOk(pv, num)
  {
    Sample(Name(f), LabelsOf(t), pv(TargetValue(num, f, s)).value)
  }

  /** In a listing without repeats, selecting by one target's labels leaves one sample or none. */
  lemma {:induction false} OneTarget(samples: seq<Sample>, targets: seq<Target>, t: Target)
    requires |samples| == |targets|
    requires forall i :: 0 <= i < |samples| ==> samples[i].labels == LabelsOf(targets[i])
    requires forall i, j :: 0 <= i < j < |targets| ==> targets[i] != targets[j]
    ensures t !in targets ==> Filter(samples, Wanted(LabelsOf(t))) == []
    ensures forall i :: 0 <= i < |targets| && targets[i] == t ==>
      Filter(samples, Wanted(LabelsOf(t))) == [samples[i]]
  {
    if samples != [] {
      var n := |samples| - 1;
      OneTarget(samples[..n], targets[..n], t);
      LabelsTellTargets(targets[n], t);
      assert Wanted(LabelsOf(t))(samples[n]) <==> targets[n] == t;
      assert forall i :: 0 <= i < n ==> targets[..n][i] == targets[i];
      assert targets == targets[..n] + [targets[n]];
    }
  }

  lemma LabelsTellTargets(a: Target, b: Target)
    ensures Matches(LabelsOf(a), LabelsOf(b)) <==> a == b
  {
    assert "workload" in LabelsOf(b) && "runtime" in LabelsOf(b);
    assert LabelsOf(b)["workload"] == b.workload && LabelsOf(a)["workload"] == a.workload;
  }

  lemma TargetLinesMean(pv: ValueParser, num: Numbers, st: State, ls: Listing, f: Family)
    requires NumbersOk(pv, num) && ListingOk(st, ls) && IsPerTarget(f)
    ensures EntriesOk(pv, LinesOf(num, st, ls, f))
    ensures
      var samples := Meant(pv, LinesOf(num, st, ls, f), Name(f));
      && |samples| == |ls.targets|
      && forall i :: 0 <= i < |samples| ==>
           samples[i] == TargetSample(pv, num, f, ls.targets[i], st.targets[ls.targets[i]])
  {
    var lines := LinesOf(num, st, ls, f);
    LinesAreOk(pv, num, st, ls, f);
    LinesMean(pv, f, lines, Name(f));
    forall i | 0 <= i < |lines|
      ensures Meaning(pv, lines[i]) == Series(TargetSample(pv, num, f, ls.targets[i], st.targets[ls.targets[i]]))
    {
      TargetLabelsAre(ls.targets[i]);
    }
  }

  lemma TargetIsSelected(pv: ValueParser, num: Numbers, st: State, ls: Listing, f: Family, t: Target)
    requires NumbersOk(pv, num) && ListingOk(st, ls) && IsPerTarget(f)
    ensures EntriesOk(pv, LinesOf(num, st, ls, f))
    ensures Filter(Meant(pv, LinesOf(num, st, ls, f), Name(f)), Wanted(LabelsOf(t))) ==
            if t in st.targets then [TargetSample(pv, num, f, t, st.targets[t])] else []
  {
    TargetLinesMean(pv, num, st, ls, f);
    var samples := Meant(pv, LinesOf(num, st, ls, f), Name(f));
    OneTarget(samples, ls.targets, t);
    if t in st.targets {
      var i :| 0 <= i < |ls.targets| && ls.targets[i] == t;
      assert samples[i] == TargetSample(pv, num, f, t, st.targets[t]);
    }
  }

  /** What a family shows of a target: scrapes that worked and failed, the last one's length and time, what it lacks. */
  ghost predicate Shows(f: Family, v: Float, s: Stats) {
    v.Finite? &&
    (f.Scrapes? ==> v.r == s.scrapes as real) &&
    (f.ScrapeErrors? ==> v.r == s.errors as real) &&
    (f.ScrapeDuration? ==> s.lastDurationMs - 0.0005 <= v.r <= s.lastDurationMs + 0.0005) &&
    (f.LastScrape? ==> v.r == if s.lastSuccess == None then 0.0 else s.lastSuccess.value as real) &&
    (f.MissingMetrics? ==> v.r == s.missing as real)
  }

  /**
    Asking for one target of a family finds one sample, and nothing else: the number
    recorded for it, to three places where it is printed as a decimal.
    */
  lemma EachTargetIsFound(pv: ValueParser, num: Numbers, help: Family -> string, st: State, ls: Listing,
                          mf: Families, f: Family, t: Target)
    requires NumbersOk(pv, num) && ListingOk(st, ls) && HelpOk(help)
    requires Holds(mf, pv, Lines(Page(Written(num, help, st, ls, Shown(st)))))
    requires IsPerTarget(f)
    ensures Select(mf, Name(f), LabelsOf(t)) ==
            if t in st.targets then [TargetSample(pv, num, f, t, st.targets[t])] else []
    ensures t in st.targets ==> Shows(f, TargetSample(pv, num, f, t, st.targets[t]).value, st.targets[t])
  {
    ShownOnce(st);
    RegistryPageIsRead(pv, num, help, st, ls, mf, f);
    TargetIsSelected(pv, num, st, ls, f, t);
    if t in st.targets {
      TargetIsShown(pv, num, f, t, st.targets[t]);
    }
  }

  lemma TargetIsShown(pv: ValueParser, num: Numbers, f: Family, t: Target, s: Stats)
    requires NumbersOk(pv, num) && IsPerTarget(f)
    ensures Shows(f, TargetSample(pv, num, f, t, s).value, s)
  {
  }

  /** What a family with a single series shows. */
  ghost predicate ShowsTotal(f: Family, v: Float, st: State) {
    v.Finite? &&
    (f.Uptime? ==> st.uptime - 0.0005 <= v.r <= st.uptime + 0.0005) &&
    (f.Snapshots? ==> v.r == st.snapshots as real) &&
    (f.ActiveRecommendations? ==> v.r == st.active as real) &&
    (f.DatabaseWrites? && st.database.Some? ==> v.r == st.database.value.written as real) &&
    (f.DatabaseFailures? && st.database.Some? ==> v.r == st.database.value.failed as real) &&
    (f.DatabaseDropped? && st.database.Some? ==> v.r == st.database.value.dropped as real) &&
    (f.AlertsSent? && st.alerts.Some? ==> v.r == st.alerts.value.sent as real) &&
    (f.AlertFailures? && st.alerts.Some? ==> v.r == st.alerts.value.failed as real) &&
    (f.AlertsDropped? && st.alerts.Some? ==> v.r == st.alerts.value.dropped as real) &&
    (f.AlertsSuppressed? && st.alerts.Some? ==> v.r == st.alerts.value.suppressed as real) &&
    (f.AlertsOpen? && st.alerts.Some? ==> v.r == st.alerts.value.open as real)
  }

  predicate IsTotal(f: Family) {
    !IsPerTarget(f) && !f.Recommendations? && !f.BuildInfo?
  }

  /** Every other unlabelled family shows one number, the one recorded; those that are not configured show none. */
  lemma EachTotalIsFound(pv: ValueParser, num: Numbers, help: Family -> string, st: State, ls: Listing,
                         mf: Families, f: Family)
    requires NumbersOk(pv, num) && ListingOk(st, ls) && HelpOk(help)
    requires Holds(mf, pv, Lines(Page(Written(num, help, st, ls, Shown(st)))))
    requires IsTotal(f)
    ensures f !in Shown(st) ==> Named(mf.samples, Name(f)) == []
    ensures f in Shown(st) ==>
      exists v :: Named(mf.samples, Name(f)) == [Sample(Name(f), map[], v)] && ShowsTotal(f, v, st)
  {
    RegistryPageIsRead(pv, num, help, st, ls, mf, f);
    if f in Shown(st) {
      SingleIsMeant(pv, num, st, ls, f);
      TotalIsShown(pv, num, st, f);
    }
  }

  lemma SingleIsMeant(pv: ValueParser, num: Numbers, st: State, ls: Listing, f: Family)
    requires NumbersOk(pv, num) && ListingOk(st, ls) && IsTotal(f)
    ensures EntriesOk(pv, LinesOf(num, st, ls, f)) && pv(Single(num, st, f)).Some?
    ensures Meant(pv, LinesOf(num, st, ls, f), Name(f)) == [Sample(Name(f), map[], pv(Single(num, st, f)).value)]
  {
    var e := Plain(Name(f), Single(num, st, f));
    SingleLineOk(pv, num, st, f);
    assert LinesOf(num, st, ls, f) == [e] && [e][1..] == [];
  }

  lemma TotalIsShown(pv: ValueParser, num: Numbers, st: State, f: Family)
    requires NumbersOk(pv, num) && IsTotal(f) && pv(Single(num, st, f)).Some?
    ensures ShowsTotal(f, pv(Single(num, st, f)).value, st)
  {
  }

  /** The recommendations are counted by severity, and the build is named by its labels. */
  lemma RecommendationsAndBuildAreFound(pv: ValueParser, num: Numbers, help: Family -> string, st: State, ls: Listing,
                                        mf: Families, i: nat)
    requires NumbersOk(pv, num) && ListingOk(st, ls) && HelpOk(help)
    requires Holds(mf, pv, Lines(Page(Written(num, help, st, ls, Shown(st)))))
    requires i < |ls.severities|
    ensures
      var counts := Named(mf.samples, Name(Recommendations));
      && |counts| == |ls.severities|
      && counts[i] == Sample(Name(Recommendations), map["severity" := ls.severities[i]],
                             Finite(st.recommendations[ls.severities[i]] as real))
    ensures Named(mf.samples, Name(BuildInfo)) ==
            [Sample(Name(BuildInfo), map["version" := st.version, "commit" := st.commit, "go_version" := st.goVersion],
                    Finite(1.0))]
  {
    AlwaysShown(st);
    RegistryPageIsRead(pv, num, help, st, ls, mf, Recommendations);
    SeverityIsMeant(pv, num, st, ls, i);
    RegistryPageIsRead(pv, num, help, st, ls, mf, BuildInfo);
    BuildIsMeant(pv, num, st, ls);
  }

  lemma AlwaysShown(st: State)
    ensures Recommendations in Shown(st) && BuildInfo in Shown(st)
  {
    assert Always()[8] == Recommendations && Always()[0] == BuildInfo;
    assert forall f :: f in Always() ==> f in Shown(st);
  }

  lemma SeverityIsMeant(pv: ValueParser, num: Numbers, st: State, ls: Listing, i: nat)
    requires NumbersOk(pv, num) && ListingOk(st, ls) && i < |ls.severities|
    ensures EntriesOk(pv, LinesOf(num, st, ls, Recommendations))
    ensures
      var counts := Meant(pv, LinesOf(num, st, ls, Recommendations), Name(Recommendations));
      && |counts| == |ls.severities|
      && counts[i] == Sample(Name(Recommendations), map["severity" := ls.severities[i]],
                             Finite(st.recommendations[ls.severities[i]] as real))
  {
    var lines := LinesOf(num, st, ls, Recommendations);
    LinesAreOk(pv, num, st, ls, Recommendations);
    LinesMean(pv, Recommendations, lines, Name(Recommendations));
    OneLabelIs("severity", ls.severities[i]);
    assert Meaning(pv, lines[i]) ==
           Series(Sample(Name(Recommendations), map["severity" := ls.severities[i]],
                         Finite(st.recommendations[ls.severities[i]] as real)));
  }

  lemma OneLabelIs(k: string, v: string)
    ensures WithLabels(map[], [(k, v)]) == map[k := v]
  {
    assert [(k, v)][1..] == [];
  }

  lemma BuildIsMeant(pv: ValueParser, num: Numbers, st: State, ls: Listing)
    requires NumbersOk(pv, num) && ListingOk(st, ls)
    ensures EntriesOk(pv, LinesOf(num, st, ls, BuildInfo))
    ensures Meant(pv, LinesOf(num, st, ls, BuildInfo), Name(BuildInfo)) ==
            [Sample(Name(BuildInfo), map["version" := st.version, "commit" := st.commit, "go_version" := st.goVersion],
                    Finite(1.0))]
  {
    var e := BuildLine(num, st);
    BuildLineOk(pv, num, st);
    BuildLabels(st.version, st.commit, st.goVersion);
    assert LinesOf(num, st, ls, BuildInfo) == [e] && [e][1..] == [];
  }

  lemma BuildLabels(a: string, b: string, c: string)
    ensures WithLabels(map[], [("version", a), ("commit", b), ("go_version", c)]) ==
            map["version" := a, "commit" := b, "go_version" := c]
  {
    var labels := [("version", a), ("commit", b), ("go_version", c)];
    assert labels[1..] == [("commit", b), ("go_version", c)];
    assert labels[1..][1..] == [("go_version", c)] && labels[1..][1..][1..] == [];
    assert WithLabels(map["version" := a, "commit" := b], [("go_version", c)]) ==
           map["version" := a, "commit" := b, "go_version" := c];
  }
}
