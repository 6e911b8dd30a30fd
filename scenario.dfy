/** The redaction that `test_apitoolkit.py` expects of its example response
    (`exampleResponseData`, `exampleDataRedaction`, `exampleDataRedacted`). */
module Scenario {
  import opened Wrappers
  import opened Dicts
  import opened Json
  import opened JsonPath
  import opened Redact
  import Utf8

  /** The members of `account_data` before `account_type`. */
  const AccountHead: Dict<Json> := [
    ("batch_number", Int(12345)),
    ("account_id", Str("123456789")),
    ("account_name", Str("test account"))]

  /** The members of `account_data` between `account_type` and `possible_account_types`. */
  const AccountMiddle: Dict<Json> := [
    ("account_status", Str("active")),
    ("account_balance", Str("100.00")),
    ("account_currency", Str("USD")),
    ("account_created_at", Str("2020-01-01T00:00:00Z")),
    ("account_updated_at", Str("2020-01-01T00:00:00Z")),
    ("account_deleted_at", Str("2020-01-01T00:00:00Z"))]

  /** `account_data` of the example response, with the three members the selectors
      touch left open. */
  function AccountData(accountType: Json, types: Json, types2: Json): Json {
    Object(AccountHead + [("account_type", accountType)] + AccountMiddle
      + [("possible_account_types", types)] + [("possible_account_types2", types2)])
  }

  const Environments: Json := Array([Str("test"), Str("staging"), Str("production")])

  const ExampleResponseData: Json :=
    Object([
      ("status", Str("success")),
      ("data", Object([
        ("message", Str("hello world")),
        ("account_data", AccountData(Str("test"), Environments, Environments))]))])

  const ExampleDataRedacted: Json :=
    Object([
      ("status", RedactedValue),
      ("data", Object([
        ("message", Str("hello world")),
        ("account_data", AccountData(RedactedValue, RedactedValue,
           Array([RedactedValue, RedactedValue, RedactedValue])))]))])

  /** `exampleDataRedaction` as the test writes it. */
  const ExampleDataRedactionText: seq<string> := [
    "$.status",
    "$.data.account_data.account_type",
    "$.data.account_data.possible_account_types",
    "$.data.account_data.possible_account_types2[*]",
    "$.non_existent"]

  /** `exampleDataRedaction`, parsed. */
  const ExampleDataRedaction: seq<Path> := [
    [Field("status")],
    [Field("data"), Field("account_data"), Field("account_type")],
    [Field("data"), Field("account_data"), Field("possible_account_types")],
    [Field("data"), Field("account_data"), Field("possible_account_types2"), Each],
    [Field("non_existent")]]

  lemma StepsTextField(n: string, rest: Path)
    ensures StepsText([Field(n)] + rest) == "." + n + StepsText(rest)
  {
    assert ([Field(n)] + rest)[1..] == rest;
  }

  lemma PrintMembers(a: string, b: string, c: string)
    ensures Print([Field(a), Field(b), Field(c)]) == "$" + (("." + a) + (("." + b) + ("." + c)))
  {
    assert [Field(c)][1..] == [];
    StepsTextField(b, [Field(c)]);
    StepsTextField(a, [Field(b), Field(c)]);
    assert [Field(b)] + [Field(c)] == [Field(b), Field(c)];
    assert [Field(a)] + [Field(b), Field(c)] == [Field(a), Field(b), Field(c)];
  }

  lemma PrintMembersEach(a: string, b: string, c: string)
    ensures Print([Field(a), Field(b), Field(c), Each]) == "$" + (("." + a) + (("." + b) + (("." + c) + "[*]")))
  {
    assert [Each][1..] == [];
    StepsTextField(c, [Each]);
    StepsTextField(b, [Field(c), Each]);
    StepsTextField(a, [Field(b), Field(c), Each]);
    assert [Field(c)] + [Each] == [Field(c), Each];
    assert [Field(b)] + [Field(c), Each] == [Field(b), Field(c), Each];
    assert [Field(a)] + [Field(b), Field(c), Each] == [Field(a), Field(b), Field(c), Each];
  }

  lemma Reassociate(a: string, b: string, c: string)
    ensures "$" + (("." + a) + (("." + b) + ("." + c))) == "$" + "." + a + "." + b + "." + c
  {
  }

  lemma ReassociateEach(a: string, b: string, c: string)
    ensures "$" + (("." + a) + (("." + b) + (("." + c) + "[*]"))) == "$" + "." + a + "." + b + "." + c + "[*]"
  {
  }

  lemma PrintMember(a: string)
    ensures Print([Field(a)]) == "$" + ("." + a)
  {
    assert [Field(a)][1..] == [];
    assert StepsText([Field(a)]) == ("." + a) + StepsText([]);
    assert ("." + a) + [] == "." + a;
  }

  /** A selector of one member reads back as that member. */
  lemma ParseMember(t: string, a: string)
    requires ValidName(a) && t == "$" + "." + a
    ensures Parse(t) == Some([Field(a)])
  {
    var p := [Field(a)];
    PrintMember(a);
    assert "$" + ("." + a) == t;
    assert WellFormed(p) by {
      forall i | 0 <= i < |p| ensures ValidName(p[i].name) {
        assert p[i] == Field(a);
      }
    }
    ParsePrint(p);
  }

  /** A selector of three nested members reads back as those members. */
  lemma ParseMembers(t: string, a: string, b: string, c: string)
    requires ValidName(a) && ValidName(b) && ValidName(c)
    requires t == "$" + "." + a + "." + b + "." + c
    ensures Parse(t) == Some([Field(a), Field(b), Field(c)])
  {
    var p := [Field(a), Field(b), Field(c)];
    PrintMembers(a, b, c);
    Reassociate(a, b, c);
    assert WellFormed(p) by {
      forall i | 0 <= i < |p| ensures ValidName(p[i].name) {
        if i == 0 { assert p[i].name == a; }
        else if i == 1 { assert p[i].name == b; }
        else { assert p[i].name == c; }
      }
    }
    ParsePrint(p);
  }

  /** Three nested members followed by `[*]` read back as those steps. */
  lemma ParseMembersEach(t: string, a: string, b: string, c: string)
    requires ValidName(a) && ValidName(b) && ValidName(c)
    requires t == "$" + "." + a + "." + b + "." + c + "[*]"
    ensures Parse(t) == Some([Field(a), Field(b), Field(c), Each])
  {
    var p := [Field(a), Field(b), Field(c), Each];
    PrintMembersEach(a, b, c);
    ReassociateEach(a, b, c);
    assert WellFormed(p) by {
      forall i | 0 <= i < |p| && p[i].Field? ensures ValidName(p[i].name) {
        if i == 0 { assert p[i].name == a; }
        else if i == 1 { assert p[i].name == b; }
        else { assert i == 2 && p[i].name == c; }
      }
    }
    ParsePrint(p);
  }

  /** The member names the test's selectors use are names the lexer accepts. */
  lemma AccountNamesValid()
    ensures ValidName("data") && ValidName("account_data") && ValidName("account_type")
  {
  }

  lemma TypesNamesValid()
    ensures ValidName("possible_account_types") && ValidName("possible_account_types2")
  {
  }

  lemma MemberNamesValid()
    ensures ValidName("status") && ValidName("non_existent")
  {
  }

  // The selector texts, one concatenation at a time.
  lemma DataText() ensures "$" + "." + "data" == "$.data" { }
  lemma AccountDataText() ensures "$.data" + "." + "account_data" == "$.data.account_data" { }
  lemma AccountTypeText()
    ensures "$.data.account_data" + "." + "account_type" == "$.data.account_data.account_type" { }
  lemma TypesText()
    ensures "$.data.account_data" + "." + "possible_account_types" == "$.data.account_data.possible_account_types" { }
  lemma Types2Text()
    ensures "$.data.account_data" + "." + "possible_account_types2" == "$.data.account_data.possible_account_types2" { }
  lemma Types2EachText()
    ensures "$.data.account_data.possible_account_types2" + "[*]" == "$.data.account_data.possible_account_types2[*]" { }
  lemma StatusText() ensures "$" + "." + "status" == "$.status" { }
  lemma NonExistentText() ensures "$" + "." + "non_existent" == "$.non_existent" { }

  lemma StatusSelector(t: string)
    requires t == "$.status"
    ensures Parse(t) == Some([Field("status")])
  {
    MemberNamesValid();
    StatusText();
    ParseMember(t, "status");
  }

  lemma AccountTypeSelector(t: string)
    requires t == "$.data.account_data.account_type"
    ensures Parse(t) == Some([Field("data"), Field("account_data"), Field("account_type")])
  {
    AccountNamesValid();
    DataText();
    AccountDataText();
    AccountTypeText();
    ParseMembers(t, "data", "account_data", "account_type");
  }

  lemma TypesSelector(t: string)
    requires t == "$.data.account_data.possible_account_types"
    ensures Parse(t) == Some([Field("data"), Field("account_data"), Field("possible_account_types")])
  {
    AccountNamesValid();
    TypesNamesValid();
    DataText();
    AccountDataText();
    TypesText();
    ParseMembers(t, "data", "account_data", "possible_account_types");
  }

  lemma Types2Selector(t: string)
    requires t == "$.data.account_data.possible_account_types2[*]"
    ensures Parse(t) == Some([Field("data"), Field("account_data"), Field("possible_account_types2"), Each])
  {
    AccountNamesValid();
    TypesNamesValid();
    DataText();
    AccountDataText();
    Types2Text();
    Types2EachText();
    ParseMembersEach(t, "data", "account_data", "possible_account_types2");
  }

  lemma NonExistentSelector(t: string)
    requires t == "$.non_existent"
    ensures Parse(t) == Some([Field("non_existent")])
  {
    MemberNamesValid();
    NonExistentText();
    ParseMember(t, "non_existent");
  }

  /** The test's selector strings parse, all five, into the steps the redaction follows. */
  lemma ExampleSelectorsParse()
    ensures ParseAll(ExampleDataRedactionText) == Some(ExampleDataRedaction)
  {
    var texts, ps := ExampleDataRedactionText, ExampleDataRedaction;
    forall i | 0 <= i < |texts| ensures Parse(texts[i]) == Some(ps[i]) {
      if i == 0 { StatusSelector(texts[i]); }
      else if i == 1 { AccountTypeSelector(texts[i]); }
      else if i == 2 { TypesSelector(texts[i]); }
      else if i == 3 { Types2Selector(texts[i]); }
      else { NonExistentSelector(texts[i]); }
    }
    ParseAllSucceeds(ExampleDataRedactionText, ExampleDataRedaction);
  }

  /** The example response, with `status` and `account_data` left open. */
  function Example(status: Json, accountData: Json): Json {
    Object([
      ("status", status),
      ("data", Object([("message", Str("hello world")), ("account_data", accountData)]))])
  }

  /** One `.name` step into the member at position `i`, the first one called `n`. */
  lemma UpdateMember(ms: Dict<Json>, i: nat, n: string, rest: Path, v: Json)
    requires i < |ms| && ms[i].0 == n
    requires forall k :: 0 <= k < i ==> ms[k].0 != n
    ensures Update(Object(ms), [Field(n)] + rest, v) == Object(ms[i := (n, Update(ms[i].1, rest, v))])
  {
    assert IndexOf(ms, n) == Some(i);
    assert ([Field(n)] + rest)[1..] == rest;
    UpdateFieldStep(Object(ms), [Field(n)] + rest, v);
  }

  /** `$.data.account_data` followed by `rest` works on the account data alone. */
  lemma UpdateAccountData(status: Json, accountData: Json, rest: Path, v: Json)
    ensures Update(Example(status, accountData), [Field("data"), Field("account_data")] + rest, v)
         == Example(status, Update(accountData, rest, v))
  {
    var data := Object([("message", Str("hello world")), ("account_data", accountData)]);
    var outer := [("status", status), ("data", data)];
    assert [Field("data"), Field("account_data")] + rest == [Field("data")] + ([Field("account_data")] + rest);
    UpdateMember(outer, 1, "data", [Field("account_data")] + rest, v);
    UpdateMember(data.members, 1, "account_data", rest, v);
    var inner := Update(accountData, rest, v);
    assert data.members[1 := ("account_data", inner)] == [("message", Str("hello world")), ("account_data", inner)];
    var data' := Object([("message", Str("hello world")), ("account_data", inner)]);
    assert outer[1 := ("data", data')] == [("status", status), ("data", data')];
  }

  lemma StatusStep(status: Json, accountData: Json, v: Json)
    ensures Update(Example(status, accountData), [Field("status")], v) == Example(v, accountData)
  {
    var ms := Example(status, accountData).members;
    UpdateMember(ms, 0, "status", [], v);
    assert [Field("status")] + [] == [Field("status")];
  }

  lemma NoSuchMember(status: Json, accountData: Json, v: Json)
    ensures Update(Example(status, accountData), [Field("non_existent")], v) == Example(status, accountData)
  {
    var ms := Example(status, accountData).members;
    assert IndexOf(ms, "non_existent") == None;
  }

  /** One `.name` step into a member that no earlier member shares a name with. */
  lemma UpdateMemberAt(pre: Dict<Json>, n: string, x: Json, post: Dict<Json>, rest: Path, v: Json)
    requires forall k :: 0 <= k < |pre| ==> pre[k].0 != n
    ensures Update(Object(pre + [(n, x)] + post), [Field(n)] + rest, v) == Object(pre + [(n, Update(x, rest, v))] + post)
  {
    var ms := pre + [(n, x)] + post;
    UpdateMember(ms, |pre|, n, rest, v);
    assert ms[|pre| := (n, Update(x, rest, v))] == pre + [(n, Update(x, rest, v))] + post;
  }

  /** No member before `account_type` has that name. */
  lemma AccountTypeNotInHead()
    ensures forall k :: 0 <= k < |AccountHead| ==> AccountHead[k].0 != "account_type"
  {
    assert "batch_number"[0] != "account_type"[0];
    assert "account_name"[8] != "account_type"[8];
  }

  lemma AccountTypeStep(a: Json, t: Json, t2: Json, v: Json)
    ensures Update(AccountData(a, t, t2), [Field("account_type")], v) == AccountData(v, t, t2)
  {
    AccountTypeNotInHead();
    var post := AccountMiddle + [("possible_account_types", t)] + [("possible_account_types2", t2)];
    UpdateMemberAt(AccountHead, "account_type", a, post, [], v);
    assert [Field("account_type")] + [] == [Field("account_type")];
    assert AccountData(a, t, t2).members == AccountHead + [("account_type", a)] + post;
    assert AccountData(v, t, t2).members == AccountHead + [("account_type", v)] + post;
  }

  lemma TypesStep(a: Json, t: Json, t2: Json, v: Json)
    ensures Update(AccountData(a, t, t2), [Field("possible_account_types")], v) == AccountData(a, v, t2)
  {
    var pre := AccountHead + [("account_type", a)] + AccountMiddle;
    assert forall k :: 0 <= k < |pre| ==> |pre[k].0| < 22;
    UpdateMemberAt(pre, "possible_account_types", t, [("possible_account_types2", t2)], [], v);
    assert [Field("possible_account_types")] + [] == [Field("possible_account_types")];
  }

  lemma Types2Step(a: Json, t: Json, t2: Json, v: Json)
    ensures Update(AccountData(a, t, t2), [Field("possible_account_types2"), Each], v)
         == AccountData(a, t, Update(t2, [Each], v))
  {
    var pre := AccountHead + [("account_type", a)] + AccountMiddle + [("possible_account_types", t)];
    assert forall k :: 0 <= k < |pre| ==> |pre[k].0| < 23;
    UpdateMemberAt(pre, "possible_account_types2", t2, [], [Each], v);
    assert [Field("possible_account_types2")] + [Each] == [Field("possible_account_types2"), Each];
    assert pre + [("possible_account_types2", t2)] + [] == AccountData(a, t, t2).members;
  }

  lemma EachStep(x: Json, y: Json, z: Json, v: Json)
    ensures Update(Array([x, y, z]), [Each], v) == Array([v, v, v])
  {
    assert [Each][1..] == [];
    var r := Update(Array([x, y, z]), [Each], v);
    assert |r.elems| == 3;
    assert forall k :: 0 <= k < 3 ==> r.elems[k] == Update([x, y, z][k], [], v) == v;
    assert r.elems == [v, v, v];
  }

  lemma FirstTwo(status: Json, a: Json, t: Json, t2: Json, v: Json)
    ensures UpdateDocument(Example(status, AccountData(a, t, t2)), ExampleDataRedaction[0], v)
         == Example(v, AccountData(a, t, t2))
    ensures UpdateDocument(Example(v, AccountData(a, t, t2)), ExampleDataRedaction[1], v)
         == Example(v, AccountData(v, t, t2))
  {
    StatusStep(status, AccountData(a, t, t2), v);
    AccountTypeStep(a, t, t2, v);
    UpdateAccountData(v, AccountData(a, t, t2), [Field("account_type")], v);
    assert ExampleDataRedaction[1] == [Field("data"), Field("account_data")] + [Field("account_type")];
  }

  lemma LastThree(t: Json, x: Json, y: Json, z: Json, v: Json)
    ensures UpdateDocument(Example(v, AccountData(v, t, Array([x, y, z]))), ExampleDataRedaction[2], v)
         == Example(v, AccountData(v, v, Array([x, y, z])))
    ensures UpdateDocument(Example(v, AccountData(v, v, Array([x, y, z]))), ExampleDataRedaction[3], v)
         == Example(v, AccountData(v, v, Array([v, v, v])))
    ensures UpdateDocument(Example(v, AccountData(v, v, Array([v, v, v]))), ExampleDataRedaction[4], v)
         == Example(v, AccountData(v, v, Array([v, v, v])))
  {
    TypesStep(v, t, Array([x, y, z]), v);
    UpdateAccountData(v, AccountData(v, t, Array([x, y, z])), [Field("possible_account_types")], v);
    assert ExampleDataRedaction[2] == [Field("data"), Field("account_data")] + [Field("possible_account_types")];
    Types2Step(v, v, Array([x, y, z]), v);
    EachStep(x, y, z, v);
    UpdateAccountData(v, AccountData(v, v, Array([x, y, z])), [Field("possible_account_types2"), Each], v);
    assert ExampleDataRedaction[3] == [Field("data"), Field("account_data")] + [Field("possible_account_types2"), Each];
    NoSuchMember(v, AccountData(v, v, Array([v, v, v])), v);
  }

  /** The selectors of the test on any document of the example's shape. */
  lemma RedactionOfShape(status: Json, a: Json, t: Json, x: Json, y: Json, z: Json, v: Json)
    ensures UpdateAll(Example(status, AccountData(a, t, Array([x, y, z]))), ExampleDataRedaction, v)
         == Example(v, AccountData(v, v, Array([v, v, v])))
  {
    var ps := ExampleDataRedaction;
    var d0 := Example(status, AccountData(a, t, Array([x, y, z])));
    var d1 := Example(v, AccountData(a, t, Array([x, y, z])));
    var d2 := Example(v, AccountData(v, t, Array([x, y, z])));
    var d3 := Example(v, AccountData(v, v, Array([x, y, z])));
    var d4 := Example(v, AccountData(v, v, Array([v, v, v])));
    FirstTwo(status, a, t, Array([x, y, z]), v);
    LastThree(t, x, y, z, v);
    calc {
      UpdateAll(d0, ps, v);
      UpdateAll(d1, ps[1..], v);
      { assert ps[1..][0] == ps[1] && ps[1..][1..] == ps[2..]; }
      UpdateAll(d2, ps[2..], v);
      { assert ps[2..][0] == ps[2] && ps[2..][1..] == ps[3..]; }
      UpdateAll(d3, ps[3..], v);
      { assert ps[3..][0] == ps[3] && ps[3..][1..] == ps[4..]; }
      UpdateAll(d4, ps[4..], v);
      { assert ps[4..][0] == ps[4] && ps[4..][1..] == []; }
      UpdateAll(d4, [], v);
    }
  }

  /** The test's selectors redact its example response into the expected value: whole
      members for field selectors, each element for `[*]`, and nothing for a member that
      does not exist. */
  lemma ExampleRedaction()
    ensures ParseAll(ExampleDataRedactionText).Some?
    ensures UpdateAll(ExampleResponseData, ParseAll(ExampleDataRedactionText).value, RedactedValue)
         == ExampleDataRedacted
  {
    ExampleSelectorsParse();
    RedactionOfShape(Str("success"), Str("test"), Environments, Str("test"), Str("staging"), Str("production"), RedactedValue);
  }

  /** `redact_fields` on any body that loads as the example response returns the
      serialised `exampleDataRedacted`, which the test's `publish_message` expects
      (base64-encoded) as `response_body`. */
  lemma ExampleResponseBody(codec: Codec, body: Body)
    requires LoadBody(codec, body) == Some(ExampleResponseData)
    ensures RedactedBody(codec, body, ExampleDataRedactionText) == Utf8.Encode(codec.dumps(ExampleDataRedacted))
  {
    ExampleRedaction();
  }
}
