/**
 The public evidence of an inspection and the closed-shape validator readers hold it to. The
 validator works on untyped values; its meaning is stated on typed ones.
 */
module InspectionEvidence {
  import opened Utf16
  import opened CallStackPublisher

  /** The names the closed shape knows, and every other name. */
  datatype Field =
    | AddressField | MatchedField | GroupsField | RedirectedField | WithoutStackField | WithoutNamedScriptField
    | NotListedField | UnobservedField | CountField | HostsField | NamedScriptsField | OtherField(name: string)

  datatype Json = Text(s: JsString) | Integer(n: int) | Items(items: seq<Json>) | Record(fields: map<Field, Json>) | Other

  datatype Row = Row(count: nat, stack: Stack)

  datatype Evidence = Evidence(address: JsString, matched: nat, groups: seq<Row>, redirected: nat, withoutStack: nat,
                               withoutNamedScript: nat, notListed: nat, unobserved: nat)

  const MAX_SAFE_INTEGER := 9007199254740991
  const MAX_GROUPS := 20
  const EVIDENCE_KEYS := {AddressField, MatchedField, GroupsField, RedirectedField, WithoutStackField, WithoutNamedScriptField, NotListedField,
                          UnobservedField}
  const GROUP_KEYS := {CountField, HostsField, NamedScriptsField}

  // ---- Published hosts ----

  const DOT: CodeUnit := 0x2E
  const LABEL_MARKER: JsString := [0x7B, 0x6C, 0x61, 0x62, 0x65, 0x6C, 0x7D]
  const INVALID_HOST: JsString :=
    [0x7B, 0x69, 0x6E, 0x76, 0x61, 0x6C, 0x69, 0x64, 0x2D, 0x68, 0x6F, 0x73, 0x74, 0x7D]

  predicate IsDigits(s: JsString) {
    s != [] && forall i :: 0 <= i < |s| ==> 0x30 <= s[i] <= 0x39
  }

  predicate IsLabelUnit(u: CodeUnit) {
    0x61 <= u <= 0x7A || 0x30 <= u <= 0x39 || u == 0x5F || u == 0x2D
  }

  predicate IsLabel(s: JsString) {
    s == LABEL_MARKER || (1 <= |s| <= 63 && forall i :: 0 <= i < |s| ==> IsLabelUnit(s[i]))
  }

  function Labels(host: JsString): (r: seq<JsString>)
    ensures r != []
  {
    if host == [] then [[]]
    else
      var rest := Labels(host[1..]);
      if host[0] == DOT then [[]] + rest else [[host[0]] + rest[0]] + rest[1..]
  }

  predicate IsPublishedHost(host: JsString) {
    && |host| <= 253
    && (host == INVALID_HOST ||
        var labels := Labels(host);
        && |labels| >= 2 && (forall i :: 0 <= i < |labels| ==> IsLabel(labels[i]))
        && !(|labels| == 4 && forall i :: 0 <= i < 4 ==> IsDigits(labels[i])))
  }

  // ---- What evidence must be ----

  predicate ValidStack(stack: Stack, isAddress: JsString -> bool) {
    && 1 <= |stack.hosts| <= MAX_GROUP_HOSTS
    && (forall i :: 0 <= i < |stack.hosts| ==> IsPublishedHost(stack.hosts[i]))
    && NoHostFollowsItself(stack.hosts)
    && |stack.scripts| <= MAX_GROUP_SCRIPTS
    && (forall i :: 0 <= i < |stack.scripts| ==> isAddress(stack.scripts[i]))
    && Distinct(stack.scripts)
  }

  function RowSum(rows: seq<Row>, n: nat): nat
    requires n <= |rows|
  {
    if n == 0 then 0 else RowSum(rows, n - 1) + rows[n - 1].count
  }

  predicate ValidRows(rows: seq<Row>, isAddress: JsString -> bool) {
    && |rows| <= MAX_GROUPS
    && (forall i :: 0 <= i < |rows| ==> 0 < rows[i].count <= MAX_SAFE_INTEGER && ValidStack(rows[i].stack, isAddress))
    && (forall i, j :: 0 <= i < j < |rows| ==> rows[i].stack != rows[j].stack)
    && (forall i :: 0 < i < |rows| ==> rows[i].count <= rows[i - 1].count)
  }

  predicate Valid(e: Evidence, isAddress: JsString -> bool) {
    && isAddress(e.address)
    && e.matched <= MAX_SAFE_INTEGER && e.redirected <= MAX_SAFE_INTEGER && e.withoutStack <= MAX_SAFE_INTEGER
    && e.withoutNamedScript <= MAX_SAFE_INTEGER && e.notListed <= MAX_SAFE_INTEGER && e.unobserved <= MAX_SAFE_INTEGER
    && ValidRows(e.groups, isAddress)
    && e.matched == RowSum(e.groups, |e.groups|) + e.redirected + e.withoutStack + e.withoutNamedScript + e.notListed + e.unobserved
  }

  // ---- The untyped form ----

  function Texts(s: seq<JsString>): Json {
    Items(seq(|s|, i requires 0 <= i < |s| => Text(s[i])))
  }

  function EncodeRow(row: Row): Json {
    Record(map[CountField := Integer(row.count), HostsField := Texts(row.stack.hosts), NamedScriptsField := Texts(row.stack.scripts)])
  }

  function Encode(e: Evidence): Json {
    Record(map[
      AddressField := Text(e.address), MatchedField := Integer(e.matched),
      GroupsField := Items(RowItems(e.groups)),
      RedirectedField := Integer(e.redirected), WithoutStackField := Integer(e.withoutStack),
      WithoutNamedScriptField := Integer(e.withoutNamedScript), NotListedField := Integer(e.notListed),
      UnobservedField := Integer(e.unobserved)])
  }

  predicate IsCount(v: Json) {
    v.Integer? && 0 <= v.n <= MAX_SAFE_INTEGER
  }

  predicate AllText(v: Json) {
    v.Items? && forall i :: 0 <= i < |v.items| ==> v.items[i].Text?
  }

  function TextOf(v: Json): seq<JsString>
    requires AllText(v)
  {
    seq(|v.items|, i requires 0 <= i < |v.items| => v.items[i].s)
  }

  predicate IsGroup(v: Json, isAddress: JsString -> bool) {
    && v.Record? && v.fields.Keys == GROUP_KEYS
    && IsCount(v.fields[CountField]) && v.fields[CountField].n != 0
    && var hosts, scripts := v.fields[HostsField], v.fields[NamedScriptsField];
       && hosts.Items? && hosts.items != [] && |hosts.items| <= MAX_GROUP_HOSTS
       && (forall i :: 0 <= i < |hosts.items| ==> hosts.items[i].Text? && IsPublishedHost(hosts.items[i].s))
       && !(exists i :: 0 < i < |hosts.items| && hosts.items[i] == hosts.items[i - 1])
       && scripts.Items? && |scripts.items| <= MAX_GROUP_SCRIPTS
       && (forall i :: 0 <= i < |scripts.items| ==> scripts.items[i].Text? && isAddress(scripts.items[i].s))
       && Distinct(scripts.items)
  }

  function StackOf(v: Json, isAddress: JsString -> bool): Stack
    requires IsGroup(v, isAddress)
  {
    Stack(TextOf(v.fields[HostsField]), TextOf(v.fields[NamedScriptsField]))
  }

  function JsonSum(rows: seq<Json>, n: nat, isAddress: JsString -> bool): nat
    requires n <= |rows| && forall i :: 0 <= i < |rows| ==> IsGroup(rows[i], isAddress)
  {
    if n == 0 then 0 else JsonSum(rows, n - 1, isAddress) + rows[n - 1].fields[CountField].n
  }

  predicate AreGroups(v: Json, isAddress: JsString -> bool) {
    && v.Items? && |v.items| <= MAX_GROUPS
    && (forall i :: 0 <= i < |v.items| ==> IsGroup(v.items[i], isAddress))
    && (forall i, j :: 0 <= i < j < |v.items| ==>
         GroupKey(StackOf(v.items[i], isAddress)) != GroupKey(StackOf(v.items[j], isAddress)))
    && (forall i :: 0 < i < |v.items| ==> !(v.items[i].fields[CountField].n > v.items[i - 1].fields[CountField].n))
  }

  predicate IsConnectionInspectionEvidence(v: Json, isAddress: JsString -> bool) {
    && v.Record? && v.fields.Keys == EVIDENCE_KEYS
    && v.fields[AddressField].Text? && isAddress(v.fields[AddressField].s)
    && IsCount(v.fields[MatchedField]) && IsCount(v.fields[RedirectedField]) && IsCount(v.fields[WithoutStackField])
    && IsCount(v.fields[WithoutNamedScriptField]) && IsCount(v.fields[NotListedField]) && IsCount(v.fields[UnobservedField])
    && AreGroups(v.fields[GroupsField], isAddress)
    && JsonSum(v.fields[GroupsField].items, |v.fields[GroupsField].items|, isAddress) + v.fields[RedirectedField].n +
       v.fields[WithoutStackField].n + v.fields[WithoutNamedScriptField].n + v.fields[NotListedField].n +
       v.fields[UnobservedField].n == v.fields[MatchedField].n
  }

  // ---- The shape is closed: what passes is exactly valid evidence, and nothing beside it ----

  lemma TextsRoundTrip(s: seq<JsString>)
    ensures AllText(Texts(s)) && TextOf(Texts(s)) == s
  {
  }

  lemma TextOfInverts(v: Json)
    requires AllText(v)
    ensures Texts(TextOf(v)) == v
  {
    assert Texts(TextOf(v)).items == v.items;
  }

  lemma RowPassesIff(row: Row, isAddress: JsString -> bool)
    ensures IsGroup(EncodeRow(row), isAddress) <==> 0 < row.count <= MAX_SAFE_INTEGER && ValidStack(row.stack, isAddress)
    ensures IsGroup(EncodeRow(row), isAddress) ==> StackOf(EncodeRow(row), isAddress) == row.stack
  {
    TextsRoundTrip(row.stack.hosts);
    TextsRoundTrip(row.stack.scripts);
    var v := EncodeRow(row);
    var hosts, scripts := Texts(row.stack.hosts).items, Texts(row.stack.scripts).items;
    assert v.fields.Keys == GROUP_KEYS;
    assert |hosts| == |row.stack.hosts| && forall i :: 0 <= i < |hosts| ==> hosts[i] == Text(row.stack.hosts[i]);
    assert |scripts| == |row.stack.scripts| && forall i :: 0 <= i < |scripts| ==> scripts[i] == Text(row.stack.scripts[i]);
    if ValidStack(row.stack, isAddress) {
      assert Distinct(scripts);
    }
    if IsGroup(v, isAddress) {
      assert forall i :: 0 <= i < |row.stack.hosts| ==> hosts[i] == Text(row.stack.hosts[i]);
      assert NoHostFollowsItself(row.stack.hosts) by {
        forall i | 0 < i < |row.stack.hosts|
          ensures row.stack.hosts[i - 1] != row.stack.hosts[i]
        {
          assert hosts[i] != hosts[i - 1];
        }
      }
      assert Distinct(row.stack.scripts) by {
        forall i, j | 0 <= i < j < |row.stack.scripts|
          ensures row.stack.scripts[i] != row.stack.scripts[j]
        {
          assert scripts[i] != scripts[j];
        }
      }
    }
  }

  lemma GroupIsARow(v: Json, isAddress: JsString -> bool) returns (row: Row)
    requires IsGroup(v, isAddress)
    ensures v == EncodeRow(row) && row.count == v.fields[CountField].n && row.stack == StackOf(v, isAddress)
  {
    row := Row(v.fields[CountField].n, StackOf(v, isAddress));
    TextOfInverts(v.fields[HostsField]);
    TextOfInverts(v.fields[NamedScriptsField]);
    assert v.fields == EncodeRow(row).fields;
  }

  lemma {:induction false} SumsAgree(rows: seq<Row>, items: seq<Json>, n: nat, isAddress: JsString -> bool)
    requires n <= |rows| == |items|
    requires forall i :: 0 <= i < |items| ==> IsGroup(items[i], isAddress) && items[i].fields[CountField].n == rows[i].count
    ensures JsonSum(items, n, isAddress) == RowSum(rows, n)
  {
    if n > 0 {
      SumsAgree(rows, items, n - 1, isAddress);
    }
  }

  function RowItems(rows: seq<Row>): seq<Json> {
    seq(|rows|, i requires 0 <= i < |rows| => EncodeRow(rows[i]))
  }

  lemma RowsPass(rows: seq<Row>, isAddress: JsString -> bool)
    ensures forall i :: 0 <= i < |rows| ==>
      (IsGroup(RowItems(rows)[i], isAddress) <==>
        0 < rows[i].count <= MAX_SAFE_INTEGER && ValidStack(rows[i].stack, isAddress))
    ensures forall i :: 0 <= i < |rows| && IsGroup(RowItems(rows)[i], isAddress) ==>
      StackOf(RowItems(rows)[i], isAddress) == rows[i].stack
  {
    forall i | 0 <= i < |rows|
      ensures IsGroup(RowItems(rows)[i], isAddress) <==>
        0 < rows[i].count <= MAX_SAFE_INTEGER && ValidStack(rows[i].stack, isAddress)
      ensures IsGroup(RowItems(rows)[i], isAddress) ==> StackOf(RowItems(rows)[i], isAddress) == rows[i].stack
    {
      RowPassesIff(rows[i], isAddress);
    }
  }

  lemma RowCounts(rows: seq<Row>, i: nat)
    requires i < |rows|
    ensures RowItems(rows)[i].Record? && CountField in RowItems(rows)[i].fields
    ensures RowItems(rows)[i].fields[CountField] == Integer(rows[i].count)
  {
  }

  lemma RowsDescend(rows: seq<Row>, isAddress: JsString -> bool)
    requires forall i :: 0 <= i < |rows| ==> IsGroup(RowItems(rows)[i], isAddress)
    ensures (forall i :: 0 < i < |rows| ==>
      !(RowItems(rows)[i].fields[CountField].n > RowItems(rows)[i - 1].fields[CountField].n)) <==>
      (forall i :: 0 < i < |rows| ==> rows[i].count <= rows[i - 1].count)
  {
    forall i | 0 < i < |rows|
      ensures !(RowItems(rows)[i].fields[CountField].n > RowItems(rows)[i - 1].fields[CountField].n) <==>
        rows[i].count <= rows[i - 1].count
    {
      RowCounts(rows, i);
      RowCounts(rows, i - 1);
    }
  }

  lemma RowsPassIff(rows: seq<Row>, isAddress: JsString -> bool)
    ensures AreGroups(Items(RowItems(rows)), isAddress) <==> ValidRows(rows, isAddress)
  {
    RowsPass(rows, isAddress);
    if forall i :: 0 <= i < |rows| ==> IsGroup(RowItems(rows)[i], isAddress) {
      RowsDescend(rows, isAddress);
      DistinctRows(rows, isAddress);
    }
  }

  lemma RowsSum(rows: seq<Row>, isAddress: JsString -> bool)
    requires AreGroups(Items(RowItems(rows)), isAddress)
    ensures JsonSum(RowItems(rows), |rows|, isAddress) == RowSum(rows, |rows|)
  {
    forall i: nat | i < |rows|
      ensures RowItems(rows)[i].fields[CountField].n == rows[i].count
    {
      RowCounts(rows, i);
    }
    SumsAgree(rows, RowItems(rows), |rows|, isAddress);
  }

  lemma DistinctRows(rows: seq<Row>, isAddress: JsString -> bool)
    requires forall i :: 0 <= i < |rows| ==> IsGroup(RowItems(rows)[i], isAddress)
    ensures (forall i, j :: 0 <= i < j < |rows| ==>
      GroupKey(StackOf(RowItems(rows)[i], isAddress)) != GroupKey(StackOf(RowItems(rows)[j], isAddress))) <==>
      (forall i, j :: 0 <= i < j < |rows| ==> rows[i].stack != rows[j].stack)
  {
    RowsPass(rows, isAddress);
    forall i, j | 0 <= i < j < |rows|
      ensures GroupKey(StackOf(RowItems(rows)[i], isAddress)) != GroupKey(StackOf(RowItems(rows)[j], isAddress)) <==>
        rows[i].stack != rows[j].stack
    {
      GroupKeyIsInjective(rows[i].stack, rows[j].stack);
    }
  }

  lemma EncodedFields(e: Evidence)
    ensures Encode(e).fields.Keys == EVIDENCE_KEYS
    ensures Encode(e).fields[AddressField] == Text(e.address) && Encode(e).fields[MatchedField] == Integer(e.matched)
    ensures Encode(e).fields[GroupsField] == Items(RowItems(e.groups))
    ensures Encode(e).fields[RedirectedField] == Integer(e.redirected)
    ensures Encode(e).fields[WithoutStackField] == Integer(e.withoutStack)
    ensures Encode(e).fields[WithoutNamedScriptField] == Integer(e.withoutNamedScript)
    ensures Encode(e).fields[NotListedField] == Integer(e.notListed)
    ensures Encode(e).fields[UnobservedField] == Integer(e.unobserved)
  {
  }

  lemma EncodedPassesIff(e: Evidence, isAddress: JsString -> bool)
    ensures IsConnectionInspectionEvidence(Encode(e), isAddress) <==> Valid(e, isAddress)
  {
    EncodedFields(e);
    RowsPassIff(e.groups, isAddress);
    if AreGroups(Items(RowItems(e.groups)), isAddress) {
      RowsSum(e.groups, isAddress);
    }
  }

  /** Main result on the validator: it accepts a value exactly when the value encodes valid evidence. */
  lemma AcceptsIff(v: Json, isAddress: JsString -> bool)
    ensures IsConnectionInspectionEvidence(v, isAddress) <==> exists e :: v == Encode(e) && Valid(e, isAddress)
  {
    if IsConnectionInspectionEvidence(v, isAddress) {
      var e := Decoded(v, isAddress);
      EncodedPassesIff(e, isAddress);
    }
    forall e | v == Encode(e) && Valid(e, isAddress)
      ensures IsConnectionInspectionEvidence(v, isAddress)
    {
      EncodedPassesIff(e, isAddress);
    }
  }

  lemma Decoded(v: Json, isAddress: JsString -> bool) returns (e: Evidence)
    requires IsConnectionInspectionEvidence(v, isAddress)
    ensures v == Encode(e)
  {
    var items := v.fields[GroupsField].items;
    var rows: seq<Row> := [];
    while |rows| < |items|
      invariant |rows| <= |items| && forall i :: 0 <= i < |rows| ==> items[i] == EncodeRow(rows[i])
    {
      var row := GroupIsARow(items[|rows|], isAddress);
      rows := rows + [row];
    }
    e := Evidence(v.fields[AddressField].s, v.fields[MatchedField].n, rows, v.fields[RedirectedField].n, v.fields[WithoutStackField].n,
                  v.fields[WithoutNamedScriptField].n, v.fields[NotListedField].n, v.fields[UnobservedField].n);
    assert RowItems(rows) == items;
    assert v.fields == Encode(e).fields;
  }
}
