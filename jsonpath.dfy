/** The fragment of JSONPath used as redaction selectors: `$` followed by
    `.name` steps and `[*]` steps, with the update semantics of `jsonpath_ng`:
    `parse(path).update(data, value)`. */
module JsonPath {
  import opened Wrappers
  import opened Dicts
  import opened Json

  /** `.name` selects the member `name` of an object; `[*]` selects every element of an array. */
  datatype Step = Field(name: string) | Each

  /** The steps after the root `$`. */
  type Path = seq<Step>

  // ---------------------------------------------------------------- syntax

  /** First character of a name, as in the identifier token of `jsonpath_ng`'s lexer. */
  predicate IsNameStart(c: char) {
    'a' <= c <= 'z' || 'A' <= c <= 'Z' || c == '_' || c == '@'
  }

  /** Any later character of a name (so `credit-card` is one name). */
  predicate IsNameChar(c: char) {
    IsNameStart(c) || '0' <= c <= '9' || c == '-'
  }

  /** Words the lexer turns into keyword tokens instead of identifiers. */
  predicate IsKeyword(n: string) {
    n == "where" || n == "wherenot"
  }

  predicate ValidName(n: string) {
    && |n| > 0 && IsNameStart(n[0]) && (forall i :: 0 < i < |n| ==> IsNameChar(n[i]))
    && !IsKeyword(n)
  }

  /** Every `.name` step carries a name the lexer reads back as one token. */
  predicate WellFormed(p: Path) {
    forall i :: 0 <= i < |p| ==> (p[i].Field? ==> ValidName(p[i].name))
  }

  /** Length of the longest run of name characters at the head of `s` (the lexer is greedy). */
  function NameRun(s: string): (n: nat)
    ensures n <= |s|
    ensures forall i :: 0 <= i < n ==> IsNameChar(s[i])
    ensures n < |s| ==> !IsNameChar(s[n])
  {
    if s == [] || !IsNameChar(s[0]) then 0 else 1 + NameRun(s[1..])
  }

  function ParseSteps(s: string): Option<Path>
    decreases |s|
  {
    if s == [] then Some([])
    else if s[0] == '.' then
      var n := NameRun(s[1..]);
      if n == 0 || !IsNameStart(s[1]) || IsKeyword(s[1..1 + n]) then None
      else (
        match ParseSteps(s[1 + n..])
        case None => None
        case Some(rest) => Some([Field(s[1..1 + n])] + rest))
    else if |s| >= 3 && s[..3] == "[*]" then (
      match ParseSteps(s[3..])
      case None => None
      case Some(rest) => Some([Each] + rest))
    else None
  }

  /** `jsonpath_ng.parse(text)` on the fragment; `None` where parsing raises. */
  function Parse(text: string): Option<Path> {
    if |text| > 0 && text[0] == '$' then ParseSteps(text[1..]) else None
  }

  function StepText(st: Step): string {
    match st
    case Field(n) => "." + n
    case Each => "[*]"
  }

  function StepsText(p: Path): string {
    if p == [] then "" else StepText(p[0]) + StepsText(p[1..])
  }

  /** The selector as it is written in a configuration list. */
  function Print(p: Path): string {
    "$" + StepsText(p)
  }

  /** A name followed by anything that cannot continue it is read as exactly that name. */
  lemma {:induction false} NameRunStops(n: string, tail: string)
    requires forall i :: 0 <= i < |n| ==> IsNameChar(n[i])
    requires tail == [] || !IsNameChar(tail[0])
    ensures NameRun(n + tail) == |n|
    decreases |n|
  {
    if n != [] {
      var s := n + tail;
      assert s[0] == n[0] && IsNameChar(s[0]);
      assert s[1..] == n[1..] + tail;
      forall i | 0 <= i < |n[1..]| ensures IsNameChar(n[1..][i]) {
        assert n[1..][i] == n[i + 1];
      }
      NameRunStops(n[1..], tail);
    }
  }

  /** Printed steps start with `.` or `[`, neither of which can continue a name. */
  lemma StepsTextStart(p: Path)
    ensures StepsText(p) == [] || StepsText(p)[0] == '.' || StepsText(p)[0] == '['
  {
  }

  /** Parsing a printed selector gives back its steps. */
  lemma {:induction false} ParsePrint(p: Path)
    requires WellFormed(p)
    ensures Parse(Print(p)) == Some(p)
  {
    assert Print(p)[1..] == StepsText(p);
    ParseStepsText(p);
  }

  lemma ParseFieldStep(n: string, rest: string, pr: Path)
    requires ValidName(n)
    requires rest == [] || rest[0] == '.' || rest[0] == '['
    requires ParseSteps(rest) == Some(pr)
    ensures ParseSteps("." + n + rest) == Some([Field(n)] + pr)
  {
    var s := "." + n + rest;
    assert s[1..] == n + rest;
    assert forall i :: 0 <= i < |n| ==> IsNameChar(n[i]);
    NameRunStops(n, rest);
    assert s[1..1 + |n|] == n;
    assert s[1 + |n|..] == rest;
  }

  /** A reserved word in name position is not a name, so the whole selector fails. */
  lemma KeywordStepFails(k: string, rest: string)
    requires IsKeyword(k)
    requires rest == [] || !IsNameChar(rest[0])
    ensures ParseSteps("." + k + rest) == None
  {
    var s := "." + k + rest;
    assert s[1..] == k + rest;
    assert k[0] == 'w';
    assert forall i :: 0 <= i < |k| ==> IsNameChar(k[i]);
    NameRunStops(k, rest);
    assert s[1..1 + |k|] == k;
  }

  /** `parse("$.where")` raises: `where` is a keyword token, not a member name. */
  lemma WhereIsNotAName()
    ensures Parse("$.where") == None
  {
    KeywordStepFails("where", "");
    assert "$.where"[1..] == "." + "where" + "";
  }

  lemma ParseEachStep(rest: string, pr: Path)
    requires ParseSteps(rest) == Some(pr)
    ensures ParseSteps("[*]" + rest) == Some([Each] + pr)
  {
    var s := "[*]" + rest;
    assert s[..3] == "[*]" && s[0] == '[';
    assert s[3..] == rest;
  }

  lemma {:induction false} ParseStepsText(p: Path)
    requires WellFormed(p)
    ensures ParseSteps(StepsText(p)) == Some(p)
  {
    if p != [] {
      var rest := StepsText(p[1..]);
      assert WellFormed(p[1..]) by {
        forall i | 0 <= i < |p[1..]| ensures p[1..][i].Field? ==> ValidName(p[1..][i].name) {
          assert p[1..][i] == p[i + 1];
        }
      }
      ParseStepsText(p[1..]);
      assert StepsText(p) == StepText(p[0]) + rest;
      assert p == [p[0]] + p[1..];
      match p[0]
      case Field(n) =>
        assert ValidName(n) by { assert p[0].Field?; }
        StepsTextStart(p[1..]);
        ParseFieldStep(n, rest, p[1..]);
      case Each =>
        ParseEachStep(rest, p[1..]);
    }
  }

  /** Whatever parses is well formed and prints back to the same text:
      the parser accepts exactly the printed selectors. */
  lemma {:induction false} PrintParse(text: string)
    requires Parse(text).Some?
    ensures WellFormed(Parse(text).value) && Print(Parse(text).value) == text
  {
    StepsTextParse(text[1..]);
    assert text == "$" + text[1..];
  }

  /** Prepending one well-formed step to a well-formed path. */
  lemma ConsStep(st: Step, p: Path)
    requires st.Field? ==> ValidName(st.name)
    requires WellFormed(p)
    ensures WellFormed([st] + p) && StepsText([st] + p) == StepText(st) + StepsText(p)
  {
    assert ([st] + p)[1..] == p;
  }

  /** The text of a name that `ParseSteps` accepts after a `.` is a valid name. */
  lemma NameRunValid(s: string)
    requires |s| > 1 && s[0] == '.' && NameRun(s[1..]) > 0 && IsNameStart(s[1])
    requires !IsKeyword(s[1..1 + NameRun(s[1..])])
    ensures ValidName(s[1..1 + NameRun(s[1..])])
  {
    var n := NameRun(s[1..]);
    var name := s[1..1 + n];
    forall i | 0 < i < |name| ensures IsNameChar(name[i]) {
      assert name[i] == s[1..][i];
    }
  }

  lemma {:induction false} StepsTextParse(s: string)
    requires ParseSteps(s).Some?
    ensures WellFormed(ParseSteps(s).value) && StepsText(ParseSteps(s).value) == s
    decreases |s|
  {
    if s != [] {
      if s[0] == '.' {
        var n := NameRun(s[1..]);
        var rest := s[1 + n..];
        StepsTextParse(rest);
        var name := s[1..1 + n];
        NameRunValid(s);
        ConsStep(Field(name), ParseSteps(rest).value);
        assert s == "." + name + rest;
      } else {
        var rest := s[3..];
        StepsTextParse(rest);
        ConsStep(Each, ParseSteps(rest).value);
        assert s == "[*]" + rest;
      }
    }
  }

  // ------------------------------------------------------------- semantics

  /** `update` of a parsed selector below the root: every node the steps reach is
      overwritten by `v`, in place (`data[field] = v`, `data[i] = v`). A `.name` step
      on anything but an object holding `name`, or `[*]` on anything but an array,
      reaches nothing. */
  function Update(j: Json, p: Path, v: Json): Json
    decreases j
  {
    if p == [] then v
    else match p[0]
      case Field(n) =>
        if !j.Object? then j
        else (
          match IndexOf(j.members, n)
          case None => j
          case Some(i) => Object(Put(j.members, n, Update(j.members[i].1, p[1..], v))))
      case Each =>
        if !j.Array? then j
        else Array(seq(|j.elems|, k requires 0 <= k < |j.elems| => Update(j.elems[k], p[1..], v)))
  }

  /** `parse(path).update(data, v)` as `redact_fields` uses it: the bare root `$`
      returns `v` without touching `data`, and the caller keeps `data`. */
  function UpdateDocument(data: Json, p: Path, v: Json): Json {
    if p == [] then data else Update(data, p, v)
  }

  /** The selectors applied one after the other to the same document. */
  function UpdateAll(data: Json, ps: seq<Path>, v: Json): Json
    decreases |ps|
  {
    if ps == [] then data else UpdateAll(UpdateDocument(data, ps[0], v), ps[1..], v)
  }

  // ------------------------------------------------------------- locations

  /** A concrete location in a document: a member name or an array index. */
  datatype Loc = Key(name: string) | Index(i: nat)

  /** The node at a concrete location, if there is one. */
  function Lookup(j: Json, locs: seq<Loc>): Option<Json>
    decreases |locs|
  {
    if locs == [] then Some(j)
    else match locs[0]
      case Key(n) =>
        if j.Object? && IndexOf(j.members, n).Some?
        then Lookup(j.members[IndexOf(j.members, n).value].1, locs[1..])
        else None
      case Index(k) =>
        if j.Array? && k < |j.elems| then Lookup(j.elems[k], locs[1..]) else None
  }

  predicate StepMatches(st: Step, l: Loc) {
    match st
    case Field(n) => l == Key(n)
    case Each => l.Index?
  }

  /** The selector describes this location (step by step). */
  predicate Matches(p: Path, locs: seq<Loc>) {
    |p| == |locs| && forall i :: 0 <= i < |p| ==> StepMatches(p[i], locs[i])
  }

  /** The location leaves the selector's track at some step. */
  predicate Diverges(p: Path, locs: seq<Loc>) {
    exists i :: 0 <= i < |p| && i < |locs| && !StepMatches(p[i], locs[i])
  }

  /** Overwriting a member in place keeps where every key is found. */
  lemma IndexOfAfterOverwrite(ms: Dict<Json>, i: nat, n: string, x: Json, m: string)
    requires IndexOf(ms, n) == Some(i)
    ensures IndexOf(ms[i := (n, x)], m) == IndexOf(ms, m)
  {
    var ms' := ms[i := (n, x)];
    assert forall k :: 0 <= k < |ms| ==> ms'[k].0 == ms[k].0;
  }

  /** One step of `Update` into an object member that is present. */
  lemma UpdateFieldStep(j: Json, p: Path, v: Json)
    requires p != [] && p[0].Field? && j.Object?
    requires IndexOf(j.members, p[0].name).Some?
    ensures var i := IndexOf(j.members, p[0].name).value;
      Update(j, p, v) == Object(j.members[i := (p[0].name, Update(j.members[i].1, p[1..], v))])
  {
    var i := IndexOf(j.members, p[0].name).value;
    PutAtIndexOf(j.members, p[0].name, Update(j.members[i].1, p[1..], v));
  }

  /** Below every location the selector's prefix describes, the rest of the selector
      is applied to the node found there. */
  lemma {:induction false} UpdateBelowPrefix(j: Json, q: Path, rest: Path, v: Json, locs: seq<Loc>)
    requires Matches(q, locs) && Lookup(j, locs).Some?
    ensures Lookup(Update(j, q + rest, v), locs) == Some(Update(Lookup(j, locs).value, rest, v))
    decreases |q|
  {
    if q == [] {
      assert q + rest == rest;
    } else {
      var p := q + rest;
      assert p[0] == q[0] && p[1..] == q[1..] + rest;
      assert Matches(q[1..], locs[1..]) by {
        forall i | 0 <= i < |q[1..]| ensures StepMatches(q[1..][i], locs[1..][i]) {
          assert StepMatches(q[i + 1], locs[i + 1]);
        }
      }
      assert StepMatches(q[0], locs[0]);
      match q[0]
      case Field(n) =>
        assert locs[0] == Key(n);
        var i := IndexOf(j.members, n).value;
        var c := j.members[i].1;
        assert Lookup(j, locs) == Lookup(c, locs[1..]);
        var c' := Update(c, p[1..], v);
        UpdateFieldStep(j, p, v);
        var j' := Object(j.members[i := (n, c')]);
        assert Update(j, p, v) == j';
        IndexOfAfterOverwrite(j.members, i, n, c', n);
        assert Lookup(j', locs) == Lookup(c', locs[1..]);
        UpdateBelowPrefix(c, q[1..], rest, v, locs[1..]);
      case Each =>
        var k := locs[0].i;
        assert Lookup(j, locs) == Lookup(j.elems[k], locs[1..]);
        var j' := Update(j, p, v);
        assert j'.elems[k] == Update(j.elems[k], p[1..], v);
        assert Lookup(j', locs) == Lookup(j'.elems[k], locs[1..]);
        UpdateBelowPrefix(j.elems[k], q[1..], rest, v, locs[1..]);
    }
  }

  /** Every location the selector describes holds `v` afterwards, whatever it held
      before: a scalar, an object or an array is replaced whole. */
  lemma UpdateReplacesMatches(j: Json, p: Path, v: Json, locs: seq<Loc>)
    requires Matches(p, locs) && Lookup(j, locs).Some?
    ensures Lookup(Update(j, p, v), locs) == Some(v)
  {
    UpdateBelowPrefix(j, p, [], v, locs);
    assert p + [] == p;
  }

  /** `[*]` at the end of a selector replaces every element of each array it reaches
      and keeps the array's length. */
  lemma UpdateEachReplacesElements(j: Json, q: Path, v: Json, locs: seq<Loc>, es: seq<Json>)
    requires Matches(q, locs) && Lookup(j, locs) == Some(Array(es))
    ensures Lookup(Update(j, q + [Each], v), locs) == Some(Array(seq(|es|, _ => v)))
  {
    UpdateBelowPrefix(j, q, [Each], v, locs);
    var u := Update(Array(es), [Each], v);
    assert [Each][1..] == [];
    assert u.elems == seq(|es|, _ => v);
  }

  /** Locations off the selector's track keep their values. */
  lemma {:induction false} UpdateFrame(j: Json, p: Path, v: Json, locs: seq<Loc>)
    requires Diverges(p, locs)
    ensures Lookup(Update(j, p, v), locs) == Lookup(j, locs)
    decreases |locs|
  {
    var d :| 0 <= d < |p| && d < |locs| && !StepMatches(p[d], locs[d]);
    var j' := Update(j, p, v);
    match p[0]
    case Field(n) =>
      if j.Object? && IndexOf(j.members, n).Some? {
        var i := IndexOf(j.members, n).value;
        var c := j.members[i].1;
        UpdateFieldStep(j, p, v);
        match locs[0]
        case Key(m) =>
          IndexOfAfterOverwrite(j.members, i, n, Update(c, p[1..], v), m);
          if m == n {
            assert d > 0 && !StepMatches(p[1..][d - 1], locs[1..][d - 1]);
            UpdateFrame(c, p[1..], v, locs[1..]);
          }
        case Index(_) =>
      }
    case Each =>
      if j.Array? {
        match locs[0]
        case Key(_) =>
        case Index(k) =>
          if k < |j.elems| {
            assert d > 0 && !StepMatches(p[1..][d - 1], locs[1..][d - 1]);
            UpdateFrame(j.elems[k], p[1..], v, locs[1..]);
          }
      }
  }

  /** A selector changes the document only where it describes an existing location:
      one that matches nothing changes nothing. */
  lemma {:induction false} UpdateChangesOnlyAtMatch(j: Json, p: Path, v: Json) returns (locs: seq<Loc>)
    requires Update(j, p, v) != j
    ensures Matches(p, locs) && Lookup(j, locs).Some?
    decreases j
  {
    if p == [] {
      locs := [];
    } else {
      match p[0]
      case Field(n) =>
        var i := IndexOf(j.members, n).value;
        var c := j.members[i].1;
        UpdateFieldStep(j, p, v);
        var rest := UpdateChangesOnlyAtMatch(c, p[1..], v);
        locs := [Key(n)] + rest;
        assert locs[1..] == rest;
        forall t | 0 <= t < |p| ensures StepMatches(p[t], locs[t]) {
          if t > 0 { assert StepMatches(p[1..][t - 1], rest[t - 1]); }
        }
      case Each =>
        var es := j.elems;
        var es' := Update(j, p, v).elems;
        var k :| 0 <= k < |es| && es'[k] != es[k];
        var rest := UpdateChangesOnlyAtMatch(es[k], p[1..], v);
        locs := [Index(k)] + rest;
        assert locs[1..] == rest;
        forall t | 0 <= t < |p| ensures StepMatches(p[t], locs[t]) {
          if t > 0 { assert StepMatches(p[1..][t - 1], rest[t - 1]); }
        }
    }
  }

  /** With a scalar sentinel, updating creates no location that was not there
      before: no member is added anywhere in the document. */
  lemma {:induction false} UpdateAddsNothing(j: Json, p: Path, v: Json, locs: seq<Loc>)
    requires v.IsLeaf() && Lookup(Update(j, p, v), locs).Some?
    ensures Lookup(j, locs).Some?
    decreases |locs|
  {
    if locs != [] && p != [] {
      match p[0]
      case Field(n) =>
        if j.Object? && IndexOf(j.members, n).Some? {
          var i := IndexOf(j.members, n).value;
          var c := j.members[i].1;
          UpdateFieldStep(j, p, v);
          match locs[0]
          case Key(m) =>
            IndexOfAfterOverwrite(j.members, i, n, Update(c, p[1..], v), m);
            if m == n {
              UpdateAddsNothing(c, p[1..], v, locs[1..]);
            }
          case Index(_) =>
        }
      case Each =>
        if j.Array? {
          match locs[0]
          case Key(_) =>
          case Index(k) =>
            UpdateAddsNothing(j.elems[k], p[1..], v, locs[1..]);
        }
    }
  }

  // ----------------------------------------------------------- idempotence

  /** Applying a selector twice is the same as applying it once. */
  lemma {:induction false} UpdateIdempotent(j: Json, p: Path, v: Json)
    ensures Update(Update(j, p, v), p, v) == Update(j, p, v)
    decreases j
  {
    if p != [] {
      match p[0]
      case Field(n) =>
        if j.Object? && IndexOf(j.members, n).Some? {
          var i := IndexOf(j.members, n).value;
          var c' := Update(j.members[i].1, p[1..], v);
          UpdateFieldStep(j, p, v);
          var j' := Object(j.members[i := (n, c')]);
          IndexOfAfterOverwrite(j.members, i, n, c', n);
          UpdateFieldStep(j', p, v);
          UpdateIdempotent(j.members[i].1, p[1..], v);
          assert j'.members[i := (n, Update(c', p[1..], v))] == j'.members;
        }
      case Each =>
        if j.Array? {
          var j' := Update(j, p, v);
          forall k | 0 <= k < |j.elems| ensures Update(j'.elems[k], p[1..], v) == j'.elems[k] {
            UpdateIdempotent(j.elems[k], p[1..], v);
          }
          assert Update(j', p, v).elems == j'.elems;
        }
    }
  }

  /** A scalar has nothing below it for a non-empty selector to reach. */
  lemma UpdateScalar(j: Json, p: Path, v: Json)
    requires j.IsLeaf() && p != []
    ensures Update(j, p, v) == j
  {
  }

  /** With a scalar sentinel, a document that one selector leaves unchanged stays
      that way after any other selector has been applied. */
  lemma {:induction false} UpdateKeepsFixed(j: Json, p: Path, q: Path, v: Json)
    requires v.IsLeaf() && Update(j, p, v) == j
    ensures Update(Update(j, q, v), p, v) == Update(j, q, v)
    decreases j
  {
    var j' := Update(j, q, v);
    if p == [] {
      if q != [] { UpdateScalar(v, q, v); }
    } else if q == [] {
      UpdateScalar(v, p, v);
    } else if j.IsLeaf() {
      UpdateScalar(j, q, v);
    } else {
      match q[0]
      case Field(n) =>
        if j.Object? && IndexOf(j.members, n).Some? {
          var i := IndexOf(j.members, n).value;
          var c' := Update(j.members[i].1, q[1..], v);
          UpdateFieldStep(j, q, v);
          assert j' == Object(j.members[i := (n, c')]);
          if p[0].Field? {
            var m := p[0].name;
            IndexOfAfterOverwrite(j.members, i, n, c', m);
            if IndexOf(j.members, m).Some? {
              var i2 := IndexOf(j.members, m).value;
              UpdateFieldStep(j, p, v);
              var d := Update(j.members[i2].1, p[1..], v);
              assert j.members[i2 := (m, d)][i2] == j.members[i2];
              UpdateFieldStep(j', p, v);
              if m == n {
                UpdateKeepsFixed(j.members[i].1, p[1..], q[1..], v);
                assert j'.members[i := (n, Update(c', p[1..], v))] == j'.members;
              } else {
                assert j'.members[i2 := (m, Update(j'.members[i2].1, p[1..], v))] == j'.members;
              }
            }
          }
        }
      case Each =>
        if j.Array? && p[0].Each? {
          var es := j.elems;
          forall k | 0 <= k < |es| ensures Update(j'.elems[k], p[1..], v) == j'.elems[k] {
            assert Update(j, p, v).elems[k] == es[k];
            UpdateKeepsFixed(es[k], p[1..], q[1..], v);
          }
          assert Update(j', p, v).elems == j'.elems;
        }
    }
  }

  /** The selector changes nothing more in this document. */
  predicate Fixed(j: Json, p: Path, v: Json) {
    UpdateDocument(j, p, v) == j
  }

  lemma {:induction false} UpdateAllKeepsFixed(j: Json, p: Path, qs: seq<Path>, v: Json)
    requires v.IsLeaf() && Fixed(j, p, v)
    ensures Fixed(UpdateAll(j, qs, v), p, v)
    decreases |qs|
  {
    if qs != [] {
      if p != [] && qs[0] != [] {
        UpdateKeepsFixed(j, p, qs[0], v);
      }
      UpdateAllKeepsFixed(UpdateDocument(j, qs[0], v), p, qs[1..], v);
    }
  }

  /** After a list of selectors has been applied with a scalar sentinel, none of them
      changes anything more. */
  lemma {:induction false} UpdateAllFixesEach(j: Json, ps: seq<Path>, v: Json)
    requires v.IsLeaf()
    ensures forall i :: 0 <= i < |ps| ==> Fixed(UpdateAll(j, ps, v), ps[i], v)
    decreases |ps|
  {
    if ps != [] {
      var j1 := UpdateDocument(j, ps[0], v);
      if ps[0] != [] { UpdateIdempotent(j, ps[0], v); }
      UpdateAllKeepsFixed(j1, ps[0], ps[1..], v);
      UpdateAllFixesEach(j1, ps[1..], v);
      forall i | 1 <= i < |ps| ensures Fixed(UpdateAll(j, ps, v), ps[i], v) {
        assert ps[i] == ps[1..][i - 1];
      }
    }
  }

  lemma {:induction false} UpdateAllOnFixed(x: Json, ps: seq<Path>, v: Json)
    requires forall i :: 0 <= i < |ps| ==> Fixed(x, ps[i], v)
    ensures UpdateAll(x, ps, v) == x
    decreases |ps|
  {
    if ps != [] {
      assert Fixed(x, ps[0], v);
      forall i | 0 <= i < |ps[1..]| ensures Fixed(x, ps[1..][i], v) {
        assert ps[1..][i] == ps[i + 1];
      }
      UpdateAllOnFixed(x, ps[1..], v);
    }
  }

  /** A location that leaves the track of every selector in the list (or is only
      reached by the bare root `$`, which changes nothing) keeps its value through
      the whole loop. */
  lemma {:induction false} UpdateAllFrame(j: Json, ps: seq<Path>, v: Json, locs: seq<Loc>)
    requires forall i :: 0 <= i < |ps| ==> ps[i] == [] || Diverges(ps[i], locs)
    ensures Lookup(UpdateAll(j, ps, v), locs) == Lookup(j, locs)
    decreases |ps|
  {
    if ps != [] {
      if ps[0] != [] {
        UpdateFrame(j, ps[0], v, locs);
      }
      forall i | 0 <= i < |ps[1..]| ensures ps[1..][i] == [] || Diverges(ps[1..][i], locs) {
        assert ps[1..][i] == ps[i + 1];
      }
      UpdateAllFrame(UpdateDocument(j, ps[0], v), ps[1..], v, locs);
    }
  }

  /** After the loop, every location of the result that some non-root selector in the
      list describes holds the written value. */
  lemma UpdateAllReplacesMatches(j: Json, ps: seq<Path>, v: Json, locs: seq<Loc>, i: nat)
    requires v.IsLeaf() && i < |ps| && ps[i] != [] && Matches(ps[i], locs)
    requires Lookup(UpdateAll(j, ps, v), locs).Some?
    ensures Lookup(UpdateAll(j, ps, v), locs) == Some(v)
  {
    var r := UpdateAll(j, ps, v);
    UpdateAllFixesEach(j, ps, v);
    assert Update(r, ps[i], v) == r;
    UpdateReplacesMatches(r, ps[i], v, locs);
  }

  /** Redacting an already redacted document with the same selectors changes nothing. */
  lemma UpdateAllIdempotent(j: Json, ps: seq<Path>, v: Json)
    requires v.IsLeaf()
    ensures UpdateAll(UpdateAll(j, ps, v), ps, v) == UpdateAll(j, ps, v)
  {
    UpdateAllFixesEach(j, ps, v);
    UpdateAllOnFixed(UpdateAll(j, ps, v), ps, v);
  }
}
