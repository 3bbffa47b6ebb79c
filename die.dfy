/**
 * Detect-It-Easy result bucketing: every detected value that has a name
 * other than "unknown", a version and a type is recorded on the payload
 * file, in the list belonging to its lower-cased type.
 */
module Die {
  import opened Wrappers
  import Text

  /** One entry of a detect's `values` list; a missing key reads as "". */
  datatype DieValue = DieValue(fields: map<string, string>)

  function Field(v: DieValue, key: string): string {
    if key in v.fields then v.fields[key] else ""
  }

  /** One element of the `detects` list; a missing `values` key is an empty list. */
  datatype Detect = Detect(values: seq<DieValue>)

  /** The record stored on the payload file. */
  datatype DetectItEasy = DetectItEasy(info: string, name: string, text: string, kind: string, version: string)

  const Compiler := "compiler"
  const Library := "library"
  const Linker := "linker"
  const Packer := "packer"
  const SignTool := "sign tool"
  const Tool := "tool"

  /** The types that have a list of their own. */
  const Kinds: seq<string> := [Compiler, Library, Linker, Packer, SignTool, Tool]

  /** The record a value yields, or None when the value is skipped. */
  function Detected(v: DieValue): Option<DetectItEasy> {
    var name := Field(v, "name");
    var version := Field(v, "version");
    var kind := Text.Lower(Field(v, "type"));
    if name == "" || name == "unknown" then None
    else if version == "" then None
    else if kind == "" then None
    else Some(DetectItEasy(Field(v, "info"), name, Field(v, "string"), kind, version))
  }

  function Yield(v: DieValue): seq<DetectItEasy> {
    if Detected(v).Some? then [Detected(v).value] else []
  }

  /** The records of a list of values, in order. */
  function ValueEntries(vs: seq<DieValue>): seq<DetectItEasy> {
    if vs == [] then [] else ValueEntries(vs[..|vs| - 1]) + Yield(vs[|vs| - 1])
  }

  /** The records of all detects, in encounter order. */
  function Entries(ds: seq<Detect>): seq<DetectItEasy> {
    if ds == [] then [] else Entries(ds[..|ds| - 1]) + ValueEntries(ds[|ds| - 1].values)
  }

  /** The records of one type, in order. */
  function OfType(xs: seq<DetectItEasy>, kind: string): seq<DetectItEasy> {
    if xs == [] then []
    else OfType(xs[..|xs| - 1], kind) + (if xs[|xs| - 1].kind == kind then [xs[|xs| - 1]] else [])
  }

  lemma {:induction false} OfTypeAppend(xs: seq<DetectItEasy>, ys: seq<DetectItEasy>, kind: string)
    ensures OfType(xs + ys, kind) == OfType(xs, kind) + OfType(ys, kind)
    decreases |ys|
  {
    if ys == [] {
      assert xs + ys == xs;
    } else {
      var n := |ys| - 1;
      assert (xs + ys)[..|xs + ys| - 1] == xs + ys[..n];
      OfTypeAppend(xs, ys[..n], kind);
    }
  }

  /** The conditions under which a value is kept. */
  predicate Accepted(v: DieValue) {
    Field(v, "name") != "" && Field(v, "name") != "unknown" && Field(v, "version") != ""
    && Field(v, "type") != ""
  }

  lemma {:induction false} ValueEntriesSpec(vs: seq<DieValue>)
    ensures |ValueEntries(vs)| <= |vs|
    ensures forall d :: d in ValueEntries(vs) <==> exists j | 0 <= j < |vs| :: d in Yield(vs[j])
  {
    if vs != [] {
      var n := |vs| - 1;
      ValueEntriesSpec(vs[..n]);
      assert forall j | 0 <= j < n :: vs[..n][j] == vs[j];
    }
  }

  lemma DetectedAccepted(v: DieValue)
    ensures Detected(v).Some? <==> Accepted(v)
  {
    assert |Text.Lower(Field(v, "type"))| == |Field(v, "type")|;
  }

  /** A record comes from some value of some detect, and every value's record is kept. */
  lemma {:induction false} EntriesSpec(ds: seq<Detect>)
    ensures forall d :: d in Entries(ds) <==> exists i, j | 0 <= i < |ds| && 0 <= j < |ds[i].values| :: d in Yield(ds[i].values[j])
  {
    if ds != [] {
      var n := |ds| - 1;
      EntriesSpec(ds[..n]);
      ValueEntriesSpec(ds[n].values);
      assert Entries(ds) == Entries(ds[..n]) + ValueEntries(ds[n].values);
      forall i | 0 <= i < n
        ensures ds[..n][i] == ds[i]
      {
      }
    }
  }

  /**
   * A value yields a record exactly when it has a name other than
   * "unknown", a version and a type; the record keeps those fields, with
   * the type in lower case.
   */
  lemma YieldSpec(v: DieValue)
    ensures Yield(v) != [] <==> Accepted(v)
    ensures forall d | d in Yield(v) ::
              d.name == Field(v, "name") && d.version == Field(v, "version")
              && d.kind == Text.Lower(Field(v, "type")) && d.info == Field(v, "info") && d.text == Field(v, "string")
    ensures forall d | d in Yield(v) :: d.name != "" && d.name != "unknown" && d.version != "" && d.kind != "" && Text.Lower(d.kind) == d.kind
  {
    DetectedAccepted(v);
    LowerTwice(Field(v, "type"));
  }

  lemma LowerTwice(s: string)
    ensures Text.Lower(Text.Lower(s)) == Text.Lower(s)
  {
  }

  /** The six detector lists of a payload file. */
  datatype Lists = Lists(compilers: seq<DetectItEasy>, libraries: seq<DetectItEasy>, linkers: seq<DetectItEasy>,
                         packers: seq<DetectItEasy>, signTools: seq<DetectItEasy>, tools: seq<DetectItEasy>)

  const NoLists := Lists([], [], [], [], [], [])

  /** The lists after one record is appended to the list of its type; a record of any other type is dropped. */
  function Place(ls: Lists, d: DetectItEasy): Lists {
    if d.kind == Compiler then ls.(compilers := ls.compilers + [d])
    else if d.kind == Library then ls.(libraries := ls.libraries + [d])
    else if d.kind == Linker then ls.(linkers := ls.linkers + [d])
    else if d.kind == Packer then ls.(packers := ls.packers + [d])
    else if d.kind == SignTool then ls.(signTools := ls.signTools + [d])
    else if d.kind == Tool then ls.(tools := ls.tools + [d])
    else ls
  }

  /** The lists after the records are placed one by one. */
  function PlaceAll(ls: Lists, xs: seq<DetectItEasy>): Lists {
    if xs == [] then ls else Place(PlaceAll(ls, xs[..|xs| - 1]), xs[|xs| - 1])
  }

  lemma {:induction false} PlaceAllAppend(ls: Lists, xs: seq<DetectItEasy>, ys: seq<DetectItEasy>)
    ensures PlaceAll(ls, xs + ys) == PlaceAll(PlaceAll(ls, xs), ys)
    decreases |ys|
  {
    if ys == [] {
      assert xs + ys == xs;
    } else {
      var n := |ys| - 1;
      assert (xs + ys)[..|xs + ys| - 1] == xs + ys[..n];
      PlaceAllAppend(ls, xs, ys[..n]);
    }
  }

  /** Placing records extends each list by exactly the records of its type, in order. */
  lemma {:induction false} PlaceAllSpec(ls: Lists, xs: seq<DetectItEasy>)
    ensures PlaceAll(ls, xs) == Lists(ls.compilers + OfType(xs, Compiler), ls.libraries + OfType(xs, Library),
                                      ls.linkers + OfType(xs, Linker), ls.packers + OfType(xs, Packer),
                                      ls.signTools + OfType(xs, SignTool), ls.tools + OfType(xs, Tool))
  {
    if xs != [] {
      PlaceAllSpec(ls, xs[..|xs| - 1]);
    }
  }

  /** The payload file whose detector lists the bucketing fills. */
  class PayloadFile {
    var fileName: string
    var compilers: seq<DetectItEasy>
    var libraries: seq<DetectItEasy>
    var linkers: seq<DetectItEasy>
    var packers: seq<DetectItEasy>
    var signTools: seq<DetectItEasy>
    var tools: seq<DetectItEasy>

    constructor (fileName: string)
      ensures this.fileName == fileName && Current() == NoLists
    {
      this.fileName := fileName;
      compilers, libraries, linkers, packers, signTools, tools := [], [], [], [], [], [];
    }

    function Current(): Lists
      reads this
    {
      Lists(compilers, libraries, linkers, packers, signTools, tools)
    }

    /** Appends one record to the list of its type. */
    method Add(d: DetectItEasy)
      modifies this
      ensures fileName == old(fileName) && Current() == Place(old(Current()), d)
    {
      if d.kind == Compiler {
        compilers := compilers + [d];
      } else if d.kind == Library {
        libraries := libraries + [d];
      } else if d.kind == Linker {
        linkers := linkers + [d];
      } else if d.kind == Packer {
        packers := packers + [d];
      } else if d.kind == SignTool {
        signTools := signTools + [d];
      } else if d.kind == Tool {
        tools := tools + [d];
      }
    }

    /** The inner loop over one detect's values. */
    method AddValues(vs: seq<DieValue>)
      modifies this
      ensures fileName == old(fileName) && Current() == PlaceAll(old(Current()), ValueEntries(vs))
    {
      var j := 0;
      while j < |vs|
        invariant 0 <= j <= |vs|
        invariant fileName == old(fileName) && Current() == PlaceAll(old(Current()), ValueEntries(vs[..j]))
      {
        var value := vs[j];
        assert vs[..j + 1][..j] == vs[..j];
        PlaceAllAppend(old(Current()), ValueEntries(vs[..j]), Yield(value));
        j := j + 1;
        var detected := Detected(value);
        if detected.None? {
          continue;
        }
        assert [detected.value][..0] == [];
        Add(detected.value);
      }
      assert vs[..j] == vs;
    }

    /** The outer loop over the detects. */
    method AddDetects(ds: seq<Detect>)
      modifies this
      ensures fileName == old(fileName) && Current() == PlaceAll(old(Current()), Entries(ds))
    {
      var i := 0;
      while i < |ds|
        invariant 0 <= i <= |ds|
        invariant fileName == old(fileName) && Current() == PlaceAll(old(Current()), Entries(ds[..i]))
      {
        var values := ds[i].values;
        assert ds[..i + 1][..i] == ds[..i];
        PlaceAllAppend(old(Current()), Entries(ds[..i]), ValueEntries(values));
        i := i + 1;
        if values == [] {
          continue;
        }
        AddValues(values);
      }
      assert ds[..i] == ds;
    }
  }

  /**
   * `get_die_data` once the scanner has run: `scan` is the scanner's output
   * and `parse` the JSON decoder, giving None for a falsy document. An
   * empty output or a falsy document gives no payload file; otherwise the
   * lists of the new payload file are the accepted records placed one by
   * one, so that (by `PlaceAllSpec`) each list holds exactly the accepted
   * records of its type, in encounter order.
   */
  method GetDieData(file: string, scan: string, parse: string -> Option<seq<Detect>>) returns (r: Option<PayloadFile>)
    ensures r.None? <==> scan == "" || parse(scan).None?
    ensures r.Some? ==> fresh(r.value) && r.value.fileName == file
    ensures r.Some? ==> r.value.Current() == PlaceAll(NoLists, Entries(parse(scan).value))
  {
    if scan == "" {
      return None;
    }
    var result := parse(scan);
    if result.None? {
      return None;
    }
    var payloadFile := new PayloadFile(file);
    payloadFile.AddDetects(result.value);
    return Some(payloadFile);
  }

  /**
   * A record is in the list of a type exactly when it is one the scan
   * yielded and has that type; so the six lists are disjoint and a record
   * of any other type is in none of them.
   */
  lemma {:induction false} OfTypeMembers(xs: seq<DetectItEasy>, kind: string)
    ensures forall d :: d in OfType(xs, kind) <==> d in xs && d.kind == kind
  {
    if xs != [] {
      var n := |xs| - 1;
      OfTypeMembers(xs[..n], kind);
      assert xs == xs[..n] + [xs[n]];
    }
  }
}
