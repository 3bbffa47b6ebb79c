/**
 * The front end's CAPA helpers: defensive parsing of a capability report
 * from untyped JSON, the one-line rendering of a MITRE ATT&CK technique and
 * the height of a results grid.
 */
module CapaUtils {
  import opened Wrappers
  import Text

  /** A JavaScript value as JSON decoding produces it (numbers restricted to integers). */
  datatype JsValue =
    | Undefined
    | Null
    | Bool(b: bool)
    | Number(n: int)
    | Str(s: string)
    | Array(items: seq<JsValue>)
    | Object(fields: map<string, JsValue>)

  /** JavaScript truthiness. */
  predicate Truthy(v: JsValue) {
    match v
    case Undefined => false
    case Null => false
    case Bool(b) => b
    case Number(n) => n != 0
    case Str(s) => s != ""
    case Array(_) => true
    case Object(_) => true
  }

  /** `String(v)`. */
  function ToString(v: JsValue): string
    decreases v, 1, 0
  {
    match v
    case Undefined => "undefined"
    case Null => "null"
    case Bool(b) => if b then "true" else "false"
    case Number(n) => Text.IntToDecimal(n)
    case Str(s) => s
    case Array(items) => ItemsToString(v, |items|)
    case Object(_) => "[object Object]"
  }

  /** `Array.prototype.join(",")` over the first `n` items; null and undefined items render as "". */
  function ItemsToString(v: JsValue, n: nat): string
    requires v.Array? && n <= |v.items|
    decreases v, 0, n
  {
    if n == 0 then ""
    else
      var item := v.items[n - 1];
      var last := if item.Undefined? || item.Null? then "" else ToString(item);
      if n == 1 then last else ItemsToString(v, n - 1) + "," + last
  }

  /** `value.key`: a TypeError on null and undefined, undefined for a missing key or a non-object. */
  function Property(v: JsValue, key: string): Result<JsValue> {
    match v
    case Undefined => Failure("TypeError: cannot read properties of undefined")
    case Null => Failure("TypeError: cannot read properties of null")
    case Object(fields) => Success(if key in fields then fields[key] else Undefined)
    case _ => Success(Undefined)
  }

  /** `typeof v === 'string' ? v : String(v || fallback)`. */
  function StringOr(v: JsValue, fallback: string): string {
    if v.Str? then v.s else ToString(if Truthy(v) then v else Str(fallback))
  }

  /** A string field read with its fallback. */
  function StringField(v: JsValue, key: string, fallback: string): Result<string> {
    var p :- Property(v, key);
    Success(StringOr(p, fallback))
  }

  /** `Array.isArray(v) ? v.map(String) : []`. */
  function Strings(v: JsValue): seq<string> {
    if v.Array? then seq(|v.items|, i requires 0 <= i < |v.items| => ToString(v.items[i])) else []
  }

  function StringsField(v: JsValue, key: string): Result<seq<string>> {
    var p :- Property(v, key);
    Success(Strings(p))
  }

  datatype MitreTechnique = MitreTechnique(parts: seq<string>, tactic: string, technique: string, subtechnique: string, tid: string)
  datatype BehaviourCatalog = BehaviourCatalog(parts: seq<string>, objective: string, behavior: string, methodName: string, mid: string)
  datatype CapaReport = CapaReport(name: string, namespace: string, description: string, mitreTechniques: seq<MitreTechnique>,
                                   behaviourCatalogs: seq<BehaviourCatalog>, references: seq<string>, rule: string)

  const UnnamedCapability := "Unnamed Capability"
  const UnknownTechnique := "Unknown Technique"

  /** `parseMitreTechnique`. */
  function ParseMitreTechnique(t: JsValue): Result<MitreTechnique> {
    var parts :- StringsField(t, "parts");
    var tactic :- StringField(t, "tactic", "");
    var technique :- StringField(t, "technique", "");
    var subtechnique :- StringField(t, "subtechnique", "");
    var tid :- StringField(t, "tid", "");
    Success(MitreTechnique(parts, tactic, technique, subtechnique, tid))
  }

  /** `parseMalwareBehaviourCatalog`. */
  function ParseBehaviourCatalog(m: JsValue): Result<BehaviourCatalog> {
    var parts :- StringsField(m, "parts");
    var objective :- StringField(m, "objective", "");
    var behavior :- StringField(m, "behavior", "");
    var methodName :- StringField(m, "method", "");
    var mid :- StringField(m, "mid", "");
    Success(BehaviourCatalog(parts, objective, behavior, methodName, mid))
  }

  /** `items.map(ParseMitreTechnique)`, failing at the first element that throws. */
  function ParseTechniques(items: seq<JsValue>): Result<seq<MitreTechnique>> {
    if items == [] then Success([])
    else
      var first :- ParseMitreTechnique(items[0]);
      var rest :- ParseTechniques(items[1..]);
      Success([first] + rest)
  }

  /** `items.map(ParseBehaviourCatalog)`, failing at the first element that throws. */
  function ParseCatalogs(items: seq<JsValue>): Result<seq<BehaviourCatalog>> {
    if items == [] then Success([])
    else
      var first :- ParseBehaviourCatalog(items[0]);
      var rest :- ParseCatalogs(items[1..]);
      Success([first] + rest)
  }

  /** `Array.isArray(v) ? v.map(parse) : []` for the two nested lists. */
  function TechniquesField(v: JsValue): Result<seq<MitreTechnique>> {
    var p :- Property(v, "mitre_techniques");
    if p.Array? then ParseTechniques(p.items) else Success([])
  }

  function CatalogsField(v: JsValue): Result<seq<BehaviourCatalog>> {
    var p :- Property(v, "malware_behaviour_catalogs");
    if p.Array? then ParseCatalogs(p.items) else Success([])
  }

  /** `parseCapaReport`. */
  function ParseCapaReport(report: JsValue): Result<CapaReport> {
    var name :- StringField(report, "name", UnnamedCapability);
    var namespace :- StringField(report, "namespace", "");
    var description :- StringField(report, "description", "");
    var techniques :- TechniquesField(report);
    var catalogs :- CatalogsField(report);
    var references :- StringsField(report, "references");
    var rule :- StringField(report, "rule", "");
    Success(CapaReport(name, namespace, description, techniques, catalogs, references, rule))
  }

  /**
   * The parser's defaults: it throws only for a null or undefined report
   * (or nested entry); a string field is kept as it is, the empty string
   * included, a falsy non-string name becomes "Unnamed Capability", any
   * other truthy value is converted with `String`, and a list field that
   * is not an array becomes empty.
   */
  lemma ParseCapaReportDefaults(report: JsValue)
    ensures ParseCapaReport(report).Failure? <==> report.Undefined? || report.Null? || TechniquesField(report).Failure? || CatalogsField(report).Failure?
    ensures report.Object? && ParseCapaReport(report).Success? ==>
              var fields := report.fields;
              var r := ParseCapaReport(report).value;
              && ("name" in fields && fields["name"].Str? ==> r.name == fields["name"].s)
              && ("name" !in fields || (!Truthy(fields["name"]) && !fields["name"].Str?) ==> r.name == UnnamedCapability)
              && ("name" in fields && Truthy(fields["name"]) ==> r.name == ToString(fields["name"]))
              && ("mitre_techniques" !in fields || !fields["mitre_techniques"].Array? ==> r.mitreTechniques == [])
              && ("malware_behaviour_catalogs" !in fields || !fields["malware_behaviour_catalogs"].Array? ==> r.behaviourCatalogs == [])
              && ("references" !in fields || !fields["references"].Array? ==> r.references == [])
              && ("references" in fields && fields["references"].Array? ==> |r.references| == |fields["references"].items|)
  {
  }

  /** A list of entries fails exactly when one of them is null or undefined, and otherwise keeps one record per entry. */
  lemma {:induction false} ParseTechniquesSpec(items: seq<JsValue>)
    ensures ParseTechniques(items).Failure? <==> exists i | 0 <= i < |items| :: items[i].Undefined? || items[i].Null?
    ensures ParseTechniques(items).Success? ==>
              |ParseTechniques(items).value| == |items|
              && forall i | 0 <= i < |items| :: ParseTechniques(items).value[i] == ParseMitreTechnique(items[i]).value
  {
    if items != [] {
      ParseTechniquesSpec(items[1..]);
      assert forall i | 1 <= i < |items| :: items[1..][i - 1] == items[i];
    }
  }

  /** The same for the behaviour catalogs. */
  lemma {:induction false} ParseCatalogsSpec(items: seq<JsValue>)
    ensures ParseCatalogs(items).Failure? <==> exists i | 0 <= i < |items| :: items[i].Undefined? || items[i].Null?
    ensures ParseCatalogs(items).Success? ==>
              |ParseCatalogs(items).value| == |items|
              && forall i | 0 <= i < |items| :: ParseCatalogs(items).value[i] == ParseBehaviourCatalog(items[i]).value
  {
    if items != [] {
      ParseCatalogsSpec(items[1..]);
      assert forall i | 1 <= i < |items| :: items[1..][i - 1] == items[i];
    }
  }

  // The JSON a parsed report is rendered back to.

  function StringsJs(xs: seq<string>): (r: JsValue)
    ensures r.Array? && |r.items| == |xs| && forall i | 0 <= i < |xs| :: r.items[i] == Str(xs[i])
  {
    Array(seq(|xs|, i requires 0 <= i < |xs| => Str(xs[i])))
  }

  function TechniqueJs(t: MitreTechnique): JsValue {
    Object(map["parts" := StringsJs(t.parts), "tactic" := Str(t.tactic), "technique" := Str(t.technique),
               "subtechnique" := Str(t.subtechnique), "tid" := Str(t.tid)])
  }

  function CatalogJs(m: BehaviourCatalog): JsValue {
    Object(map["parts" := StringsJs(m.parts), "objective" := Str(m.objective), "behavior" := Str(m.behavior),
               "method" := Str(m.methodName), "mid" := Str(m.mid)])
  }

  function TechniquesJs(ts: seq<MitreTechnique>): (r: seq<JsValue>)
    ensures |r| == |ts| && forall i | 0 <= i < |ts| :: r[i] == TechniqueJs(ts[i])
  {
    seq(|ts|, i requires 0 <= i < |ts| => TechniqueJs(ts[i]))
  }

  function CatalogsJs(ms: seq<BehaviourCatalog>): (r: seq<JsValue>)
    ensures |r| == |ms| && forall i | 0 <= i < |ms| :: r[i] == CatalogJs(ms[i])
  {
    seq(|ms|, i requires 0 <= i < |ms| => CatalogJs(ms[i]))
  }

  function ReportJs(r: CapaReport): JsValue {
    Object(map["name" := Str(r.name), "namespace" := Str(r.namespace), "description" := Str(r.description),
               "mitre_techniques" := Array(TechniquesJs(r.mitreTechniques)),
               "malware_behaviour_catalogs" := Array(CatalogsJs(r.behaviourCatalogs)),
               "references" := StringsJs(r.references), "rule" := Str(r.rule)])
  }

  lemma StringsOfStringsJs(xs: seq<string>)
    ensures Strings(StringsJs(xs)) == xs
  {
  }

  lemma TechniqueRoundTrip(t: MitreTechnique)
    ensures ParseMitreTechnique(TechniqueJs(t)) == Success(t)
  {
    StringsOfStringsJs(t.parts);
  }

  lemma CatalogRoundTrip(m: BehaviourCatalog)
    ensures ParseBehaviourCatalog(CatalogJs(m)) == Success(m)
  {
    StringsOfStringsJs(m.parts);
  }

  lemma {:induction false} TechniquesRoundTrip(ts: seq<MitreTechnique>)
    ensures ParseTechniques(TechniquesJs(ts)) == Success(ts)
  {
    if ts != [] {
      var js := TechniquesJs(ts);
      TechniqueRoundTrip(ts[0]);
      TechniquesRoundTrip(ts[1..]);
      assert js[1..] == TechniquesJs(ts[1..]);
      assert ts == [ts[0]] + ts[1..];
    }
  }

  lemma {:induction false} CatalogsRoundTrip(ms: seq<BehaviourCatalog>)
    ensures ParseCatalogs(CatalogsJs(ms)) == Success(ms)
  {
    if ms != [] {
      var js := CatalogsJs(ms);
      CatalogRoundTrip(ms[0]);
      CatalogsRoundTrip(ms[1..]);
      assert js[1..] == CatalogsJs(ms[1..]);
      assert ms == [ms[0]] + ms[1..];
    }
  }

  /**
   * A parsed report is a fixed point of the parser: rendering it back to
   * JSON and parsing again gives the same report, so the defaults are
   * applied once and parsing is idempotent.
   */
  lemma ReportRoundTrip(r: CapaReport)
    ensures ParseCapaReport(ReportJs(r)) == Success(r)
  {
    ReportJsProperties(r);
    TechniquesRoundTrip(r.mitreTechniques);
    CatalogsRoundTrip(r.behaviourCatalogs);
    StringsOfStringsJs(r.references);
  }

  lemma ReportJsProperties(r: CapaReport)
    ensures var js := ReportJs(r);
            && Property(js, "name") == Success(Str(r.name))
            && Property(js, "namespace") == Success(Str(r.namespace))
            && Property(js, "description") == Success(Str(r.description))
            && Property(js, "mitre_techniques") == Success(Array(TechniquesJs(r.mitreTechniques)))
            && Property(js, "malware_behaviour_catalogs") == Success(Array(CatalogsJs(r.behaviourCatalogs)))
            && Property(js, "references") == Success(StringsJs(r.references))
            && Property(js, "rule") == Success(Str(r.rule))
  {
  }

  lemma ParseIdempotent(report: JsValue)
    requires ParseCapaReport(report).Success?
    ensures ParseCapaReport(ReportJs(ParseCapaReport(report).value)) == ParseCapaReport(report)
  {
    ReportRoundTrip(ParseCapaReport(report).value);
  }

  // formatMitreTechnique

  /** `formatMitreTechnique`: the non-empty identifier fields, in order, pushed and joined. */
  function FormatMitreTechnique(t: MitreTechnique): string {
    var parts := Present(t);
    if |parts| > 0 then Text.Join(parts, " - ") else UnknownTechnique
  }

  /** The parts pushed: tid, technique and subtechnique, each when non-empty. */
  function Present(t: MitreTechnique): seq<string> {
    (if t.tid != "" then [t.tid] else []) + (if t.technique != "" then [t.technique] else [])
    + (if t.subtechnique != "" then [t.subtechnique] else [])
  }

  /** The rendering for each combination of present fields. */
  lemma FormatMitreTechniqueCases(t: MitreTechnique)
    ensures t.tid == "" && t.technique == "" && t.subtechnique == "" ==> FormatMitreTechnique(t) == UnknownTechnique
    ensures t.tid != "" && t.technique == "" && t.subtechnique == "" ==> FormatMitreTechnique(t) == t.tid
    ensures t.tid == "" && t.technique != "" && t.subtechnique == "" ==> FormatMitreTechnique(t) == t.technique
    ensures t.tid == "" && t.technique == "" && t.subtechnique != "" ==> FormatMitreTechnique(t) == t.subtechnique
    ensures t.tid != "" && t.technique != "" && t.subtechnique == "" ==> FormatMitreTechnique(t) == t.tid + " - " + t.technique
    ensures t.tid != "" && t.technique == "" && t.subtechnique != "" ==> FormatMitreTechnique(t) == t.tid + " - " + t.subtechnique
    ensures t.tid == "" && t.technique != "" && t.subtechnique != "" ==> FormatMitreTechnique(t) == t.technique + " - " + t.subtechnique
    ensures t.tid != "" && t.technique != "" && t.subtechnique != "" ==>
              FormatMitreTechnique(t) == t.tid + " - " + t.technique + " - " + t.subtechnique
  {
    var a, b, c := t.tid, t.technique, t.subtechnique;
    if a != "" && b != "" && c == "" {
      assert Present(t) == [a, b];
    } else if a != "" && b == "" && c != "" {
      assert Present(t) == [a, c];
    } else if a == "" && b != "" && c != "" {
      assert Present(t) == [b, c];
    } else if a != "" && b != "" && c != "" {
      assert Present(t) == [a, b, c];
    }
    JoinTwo(t.tid, t.technique);
    JoinTwo(t.tid, t.subtechnique);
    JoinTwo(t.technique, t.subtechnique);
    JoinThree(t.tid, t.technique, t.subtechnique);
  }

  lemma JoinTwo(a: string, b: string)
    ensures Text.Join([a, b], " - ") == a + " - " + b
  {
    assert [a, b][1..] == [b];
  }

  lemma JoinThree(a: string, b: string, c: string)
    ensures Text.Join([a, b, c], " - ") == a + " - " + b + " - " + c
  {
    assert [a, b, c][1..] == [b, c];
    JoinTwo(b, c);
  }

  // getGridHeight

  /** The default arguments of `getGridHeight`. */
  const DefaultRowHeight := 44
  const DefaultHeaderHeight := 48
  const PaginationHeight := 56
  const PageRows := 10

  /** `getGridHeight`. */
  function GridHeight(rowCount: int, rowHeight: int, headerHeight: int, pagination: bool): int {
    if pagination && rowCount > PageRows then rowHeight * PageRows + headerHeight + PaginationHeight
    else rowHeight * (if rowCount > 1 then rowCount else 1) + headerHeight
  }

  /**
   * The grid always reserves at least one row; with pagination it never
   * grows past a page of ten rows plus the controls, and otherwise it
   * grows with the row count, one row height per row. Past one page a
   * paginated grid is one full page plus the controls, and up to one page
   * pagination changes nothing.
   */
  lemma GridHeightBounds(rowCount: int, rowHeight: int, headerHeight: int, pagination: bool)
    requires rowHeight >= 0
    ensures GridHeight(rowCount, rowHeight, headerHeight, pagination) >= rowHeight + headerHeight
    ensures pagination ==> GridHeight(rowCount, rowHeight, headerHeight, pagination) <= rowHeight * PageRows + headerHeight + PaginationHeight
    ensures !pagination && rowCount >= 1 ==> GridHeight(rowCount + 1, rowHeight, headerHeight, pagination) == GridHeight(rowCount, rowHeight, headerHeight, pagination) + rowHeight
    ensures rowCount <= 1 ==> GridHeight(rowCount, rowHeight, headerHeight, pagination) == rowHeight + headerHeight
    ensures pagination && rowCount > PageRows ==>
              GridHeight(rowCount, rowHeight, headerHeight, true) == GridHeight(PageRows, rowHeight, headerHeight, false) + PaginationHeight
    ensures pagination && rowCount <= PageRows ==>
              GridHeight(rowCount, rowHeight, headerHeight, true) == GridHeight(rowCount, rowHeight, headerHeight, false)
  {
    if pagination && rowCount <= PageRows && rowCount > 1 {
      assert rowHeight * rowCount <= rowHeight * PageRows;
    }
    if rowCount > 1 {
      assert rowHeight * rowCount >= rowHeight;
    }
  }
}
