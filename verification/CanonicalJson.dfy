/**
 Canonical JSON (canon-v1): members sorted by UTF-16 code units, string values NFC-normalized,
 member names required to be NFC already, undefined members dropped, everything that is not JSON
 refused with the path that leads to it.

 NFC is a parameter `nfc`: any function that is idempotent and leaves ASCII alone.
 */
module CanonicalJson {
  import opened Wrappers
  import opened Utf16
  import opened JsonText

  datatype Step = Index(i: nat) | Name(key: JsString)

  datatype Reason = NonFiniteNumber | UndefinedElement | NameNotNormal | UnsupportedType(kind: string)

  datatype Refusal = Refusal(reason: Reason, path: seq<Step>)

  const MAX_ENCODED_KEYS := 256

  predicate IsAscii(s: JsString) {
    forall i :: 0 <= i < |s| ==> s[i] <= 0x7F
  }

  ghost predicate IsNormalization(nfc: JsString -> JsString) {
    (forall s :: nfc(nfc(s)) == nfc(s)) && (forall s :: IsAscii(s) ==> nfc(s) == s)
  }

  /**
   What JavaScript guarantees of any input: own keys are distinct, finite numbers print as numbers,
   holes occur in arrays only.
   */
  predicate WellFormed(v: Value) {
    match v
    case Hole => false
    case Number(token) => IsNumberToken(token)
    case Arr(items) => forall i :: 0 <= i < |items| ==> items[i].Hole? || WellFormed(items[i])
    case Obj(members) =>
      DistinctKeys(members) && forall i :: 0 <= i < |members| ==> WellFormed(members[i].value)
    case _ => true
  }

  // ---- The order of member names ----

  predicate Less(a: JsString, b: JsString) {
    b != [] && (a == [] || a[0] < b[0] || (a[0] == b[0] && Less(a[1..], b[1..])))
  }

  lemma {:induction false} LessIsTransitive(a: JsString, b: JsString, c: JsString)
    requires Less(a, b) && Less(b, c)
    ensures Less(a, c)
  {
    if a != [] && a[0] == b[0] && b[0] == c[0] {
      LessIsTransitive(a[1..], b[1..], c[1..]);
    }
  }

  lemma {:induction false} LessIsTotal(a: JsString, b: JsString)
    ensures a == b || Less(a, b) || Less(b, a)
  {
    if a != [] && b != [] && a[0] == b[0] {
      LessIsTotal(a[1..], b[1..]);
      if a[1..] == b[1..] {
        assert a == [a[0]] + a[1..] && b == [b[0]] + b[1..];
      }
    }
  }

  lemma {:induction false} LessIsIrreflexive(a: JsString)
    ensures !Less(a, a)
  {
    if a != [] {
      LessIsIrreflexive(a[1..]);
    }
  }

  predicate InOrder(members: seq<Member>) {
    forall i, j :: 0 <= i < j < |members| ==> Less(members[i].key, members[j].key)
  }

  function Insert(m: Member, sorted: seq<Member>): (r: seq<Member>)
    ensures forall x :: x in r <==> x == m || x in sorted
  {
    if sorted == [] || Less(m.key, sorted[0].key) then [m] + sorted
    else [sorted[0]] + Insert(m, sorted[1..])
  }

  function Sort(members: seq<Member>): (r: seq<Member>)
    ensures forall x :: x in r <==> x in members
  {
    if members == [] then [] else Insert(members[0], Sort(members[1..]))
  }

  lemma {:induction false} InsertKeepsOrder(m: Member, sorted: seq<Member>)
    requires InOrder(sorted) && forall i :: 0 <= i < |sorted| ==> sorted[i].key != m.key
    ensures InOrder(Insert(m, sorted))
  {
    if sorted == [] {
    } else if Less(m.key, sorted[0].key) {
      forall j | 0 < j < |sorted|
        ensures Less(m.key, sorted[j].key)
      {
        LessIsTransitive(m.key, sorted[0].key, sorted[j].key);
      }
    } else {
      LessIsTotal(m.key, sorted[0].key);
      var rest := Insert(m, sorted[1..]);
      InsertKeepsOrder(m, sorted[1..]);
      forall j | 0 <= j < |rest|
        ensures Less(sorted[0].key, rest[j].key)
      {
        assert rest[j] in rest;
      }
    }
  }

  lemma {:induction false} SortSorts(members: seq<Member>)
    requires DistinctKeys(members)
    ensures InOrder(Sort(members))
  {
    if members != [] {
      SortSorts(members[1..]);
      forall i | 0 <= i < |Sort(members[1..])|
        ensures Sort(members[1..])[i].key != members[0].key
      {
        assert Sort(members[1..])[i] in members[1..];
      }
      InsertKeepsOrder(members[0], Sort(members[1..]));
    }
  }

  predicate HasKey(members: seq<Member>, key: JsString) {
    exists j: nat :: j < |members| && members[j].key == key
  }

  ghost predicate KeysWithin(a: seq<Member>, b: seq<Member>) {
    forall i: nat :: i < |a| ==> HasKey(b, a[i].key)
  }

  /** Two ordered lists with the same keys have them at the same places. */
  lemma {:induction false} OrderIsUnique(a: seq<Member>, b: seq<Member>)
    requires InOrder(a) && InOrder(b) && KeysWithin(a, b) && KeysWithin(b, a)
    ensures |a| == |b| && forall i :: 0 <= i < |a| ==> a[i].key == b[i].key
  {
    assert a != [] ==> HasKey(b, a[0].key);
    assert b != [] ==> HasKey(a, b[0].key);
    if a != [] && b != [] {
      FirstKeysAgree(a, b);
      RestHasSameKeys(a, b);
      RestHasSameKeys(b, a);
      OrderIsUnique(a[1..], b[1..]);
      forall i | 0 <= i < |a|
        ensures a[i].key == b[i].key
      {
        assert i > 0 ==> a[1..][i - 1].key == b[1..][i - 1].key;
      }
    }
  }

  lemma FirstKeysAgree(a: seq<Member>, b: seq<Member>)
    requires InOrder(a) && InOrder(b) && a != [] && b != []
    requires HasKey(b, a[0].key) && HasKey(a, b[0].key)
    ensures a[0].key == b[0].key
  {
    var j: nat :| j < |b| && b[j].key == a[0].key;
    var i: nat :| i < |a| && a[i].key == b[0].key;
    if i > 0 && j > 0 {
      LessIsTransitive(a[0].key, b[0].key, a[0].key);
      LessIsIrreflexive(a[0].key);
    }
  }

  lemma RestHasSameKeys(a: seq<Member>, b: seq<Member>)
    requires InOrder(a) && InOrder(b) && a != [] && b != [] && a[0].key == b[0].key
    requires KeysWithin(a, b)
    ensures KeysWithin(a[1..], b[1..]) && InOrder(a[1..])
  {
    forall i: nat | i < |a[1..]|
      ensures HasKey(b[1..], a[1..][i].key)
    {
      assert HasKey(b, a[i + 1].key);
      var j: nat :| j < |b| && b[j].key == a[i + 1].key;
      assert Less(a[0].key, a[i + 1].key);
      LessIsIrreflexive(a[0].key);
      assert b[1..][j - 1].key == a[1..][i].key;
    }
  }

  // ---- The members that print, and the normal form ----

  function Defined(members: seq<Member>): (r: seq<Member>)
    ensures forall m :: m in r <==> m in members && !m.value.Undefined?
  {
    if members == [] then []
    else if members[0].value.Undefined? then Defined(members[1..])
    else [members[0]] + Defined(members[1..])
  }

  lemma {:induction false} DefinedKeepsKeysDistinct(members: seq<Member>)
    requires DistinctKeys(members)
    ensures DistinctKeys(Defined(members))
  {
    if members != [] {
      DefinedKeepsKeysDistinct(members[1..]);
      var rest := Defined(members[1..]);
      forall i | 0 <= i < |rest|
        ensures rest[i].key != members[0].key
      {
        assert rest[i] in members[1..];
      }
    }
  }

  function Printed(members: seq<Member>): (r: seq<Member>)
    ensures forall m :: m in r <==> m in members && !m.value.Undefined?
  {
    Sort(Defined(members))
  }

  lemma PrintedIsOrdered(members: seq<Member>)
    requires DistinctKeys(members)
    ensures InOrder(Printed(members)) && DistinctKeys(Printed(members))
  {
    DefinedKeepsKeysDistinct(members);
    SortSorts(Defined(members));
    var ms := Printed(members);
    forall i, j | 0 <= i < j < |ms|
      ensures ms[i].key != ms[j].key
    {
      LessIsIrreflexive(ms[i].key);
    }
  }

  /** A member printed at place `i` is a member of the object. */
  lemma PrintedMember(members: seq<Member>, i: nat) returns (j: nat)
    requires i < |Printed(members)|
    ensures j < |members| && members[j] == Printed(members)[i] && !members[j].value.Undefined?
  {
    assert Printed(members)[i] in members;
    j :| 0 <= j < |members| && members[j] == Printed(members)[i];
  }

  function PrintedValue(v: Value, i: nat): (r: Value)
    requires v.Obj? && i < |Printed(v.members)|
    ensures r < v
  {
    var m := Printed(v.members)[i];
    assert m in v.members;
    m.value
  }

  /** The value the output denotes. */
  function Normal(v: Value, nfc: JsString -> JsString): Value
    decreases v
  {
    match v
    case Str(s) => Str(nfc(s))
    case Arr(items) => Arr(seq(|items|, i requires 0 <= i < |items| => Normal(items[i], nfc)))
    case Obj(members) =>
      Obj(seq(|Printed(members)|, i requires 0 <= i < |Printed(members)| =>
        Member(Printed(members)[i].key, Normal(PrintedValue(v, i), nfc))))
    case _ => v
  }

  /** What is refused, and where, in the order the serializer meets it. A hole that is read is undefined. */
  function FirstRefusal(v: Value, path: seq<Step>, nfc: JsString -> JsString): Option<Refusal>
    decreases v, 2
  {
    match v
    case Undefined => Some(Refusal(UnsupportedType("undefined"), path))
    case Hole => Some(Refusal(UnsupportedType("undefined"), path))
    case NonFinite => Some(Refusal(NonFiniteNumber, path))
    case Unsupported(kind) => Some(Refusal(UnsupportedType(kind), path))
    case Arr(items) => FirstInItems(v, 0, path, nfc)
    case Obj(members) =>
      (match FirstBadName(Printed(members), 0, nfc)
       case Some(key) => Some(Refusal(NameNotNormal, path + [Name(key)]))
       case None => FirstInMembers(v, 0, path, nfc))
    case _ => None
  }

  /** Mapping over an array skips its holes. */
  function FirstInItems(v: Value, i: nat, path: seq<Step>, nfc: JsString -> JsString): Option<Refusal>
    requires v.Arr? && i <= |v.items|
    decreases v, 1, |v.items| - i
  {
    if i == |v.items| then None
    else if v.items[i].Hole? then FirstInItems(v, i + 1, path, nfc)
    else if v.items[i].Undefined? then Some(Refusal(UndefinedElement, path + [Index(i)]))
    else
      match FirstRefusal(v.items[i], path + [Index(i)], nfc)
      case Some(e) => Some(e)
      case None => FirstInItems(v, i + 1, path, nfc)
  }

  function FirstBadName(members: seq<Member>, i: nat, nfc: JsString -> JsString): (r: Option<JsString>)
    requires i <= |members|
    ensures r.None? <==> forall j :: i <= j < |members| ==> nfc(members[j].key) == members[j].key
    ensures r.Some? ==> exists j :: i <= j < |members| && members[j].key == r.value && nfc(r.value) != r.value
    decreases |members| - i
  {
    if i == |members| then None
    else if nfc(members[i].key) != members[i].key then Some(members[i].key)
    else FirstBadName(members, i + 1, nfc)
  }

  function FirstInMembers(v: Value, i: nat, path: seq<Step>, nfc: JsString -> JsString): Option<Refusal>
    requires v.Obj? && i <= |Printed(v.members)|
    decreases v, 1, |Printed(v.members)| - i
  {
    if i == |Printed(v.members)| then None
    else
      match FirstRefusal(PrintedValue(v, i), path + [Name(Printed(v.members)[i].key)], nfc)
      case Some(e) => Some(e)
      case None => FirstInMembers(v, i + 1, path, nfc)
  }

  function Outcome(v: Value, path: seq<Step>, nfc: JsString -> JsString): Result<JsString, Refusal> {
    match FirstRefusal(v, path, nfc)
    case Some(e) => Err(e)
    case None => Ok(Text(Normal(v, nfc)))
  }

  // ---- Which values print ----

  /** Every place of the value can be printed; the order of members plays no part. */
  ghost predicate Printable(v: Value, nfc: JsString -> JsString) {
    match v
    case Undefined => false
    case Hole => false
    case NonFinite => false
    case Unsupported(_) => false
    case Arr(items) => forall i :: 0 <= i < |items| ==> items[i].Hole? || Printable(items[i], nfc)
    case Obj(members) =>
      forall i :: 0 <= i < |members| ==>
        members[i].value.Undefined? || (nfc(members[i].key) == members[i].key && Printable(members[i].value, nfc))
    case _ => true
  }

  lemma {:induction false} AcceptedIff(v: Value, path: seq<Step>, nfc: JsString -> JsString)
    ensures FirstRefusal(v, path, nfc).None? <==> Printable(v, nfc)
    decreases v, 2
  {
    match v
    case Arr(items) => ItemsAcceptedIff(v, 0, path, nfc);
    case Obj(members) =>
      ObjectPrintableIff(v, nfc);
      MembersAcceptedIff(v, 0, path, nfc);
    case Undefined =>
    case Hole =>
    case Null =>
    case Bool(_) =>
    case Number(_) =>
    case NonFinite =>
    case Str(_) =>
    case Unsupported(_) =>
  }

  lemma {:induction false} ItemsAcceptedIff(v: Value, i: nat, path: seq<Step>, nfc: JsString -> JsString)
    requires v.Arr? && i <= |v.items|
    ensures FirstInItems(v, i, path, nfc).None? <==> forall j :: i <= j < |v.items| ==> v.items[j].Hole? || Printable(v.items[j], nfc)
    decreases v, 1, |v.items| - i
  {
    if i < |v.items| {
      if !v.items[i].Hole? { AcceptedIff(v.items[i], path + [Index(i)], nfc); }
      ItemsAcceptedIff(v, i + 1, path, nfc);
    }
  }

  lemma {:induction false} MembersAcceptedIff(v: Value, i: nat, path: seq<Step>, nfc: JsString -> JsString)
    requires v.Obj? && i <= |Printed(v.members)|
    ensures FirstInMembers(v, i, path, nfc).None? <==>
      forall j :: i <= j < |Printed(v.members)| ==> Printable(Printed(v.members)[j].value, nfc)
    decreases v, 1, |Printed(v.members)| - i
  {
    if i < |Printed(v.members)| {
      var m := Printed(v.members)[i];
      assert PrintedValue(v, i) == m.value;
      AcceptedIff(m.value, path + [Name(m.key)], nfc);
      MembersAcceptedIff(v, i + 1, path, nfc);
    }
  }

  lemma ObjectPrintableIff(v: Value, nfc: JsString -> JsString)
    requires v.Obj?
    ensures Printable(v, nfc) <==> forall j :: 0 <= j < |Printed(v.members)| ==>
      nfc(Printed(v.members)[j].key) == Printed(v.members)[j].key && Printable(Printed(v.members)[j].value, nfc)
  {
    var ms := Printed(v.members);
    if Printable(v, nfc) {
      forall j | 0 <= j < |ms|
        ensures nfc(ms[j].key) == ms[j].key && Printable(ms[j].value, nfc)
      {
        var i := PrintedMember(v.members, j);
      }
    } else {
      var i :| 0 <= i < |v.members| && !v.members[i].value.Undefined? &&
        !(nfc(v.members[i].key) == v.members[i].key && Printable(v.members[i].value, nfc));
      assert v.members[i] in ms;
    }
  }

  /** Following `path` from `v` arrives at something that cannot be printed for `reason`. */
  ghost predicate Culprit(v: Value, path: seq<Step>, reason: Reason, nfc: JsString -> JsString)
    decreases |path|
  {
    if path == [] then
      (reason == NonFiniteNumber && v.NonFinite?) || (reason == UndefinedElement && v.Undefined?) ||
      (reason.UnsupportedType? && v == Unsupported(reason.kind)) || (reason == UnsupportedType("undefined") && (v.Undefined? || v.Hole?))
    else if v.Arr? && path[0].Index? then
      path[0].i < |v.items| && Culprit(v.items[path[0].i], path[1..], reason, nfc)
    else
      v.Obj? && path[0].Name? &&
      exists m :: m in v.members && m.key == path[0].key && !m.value.Undefined? &&
        ((path[1..] == [] && reason == NameNotNormal && nfc(m.key) != m.key) || Culprit(m.value, path[1..], reason, nfc))
  }

  /** The path of a refusal starts where serialization started and leads to a culprit. */
  lemma {:induction false} RefusalNamesCulprit(v: Value, path: seq<Step>, nfc: JsString -> JsString)
    requires FirstRefusal(v, path, nfc).Some?
    ensures var e := FirstRefusal(v, path, nfc).value;
      path <= e.path && Culprit(v, e.path[|path|..], e.reason, nfc)
    decreases v, 2
  {
    match v
    case Undefined =>
    case Hole =>
    case NonFinite =>
    case Unsupported(_) =>
    case Arr(items) => ItemRefusalNamesCulprit(v, 0, path, nfc);
    case Obj(members) =>
      match FirstBadName(Printed(members), 0, nfc) {
        case Some(key) =>
          var ms := Printed(members);
          var j :| 0 <= j < |ms| && ms[j].key == key && nfc(key) != key;
          assert ms[j] in members;
          assert (path + [Name(key)])[|path|..] == [Name(key)];
        case None => MemberRefusalNamesCulprit(v, 0, path, nfc);
      }
  }

  lemma {:induction false} ItemRefusalNamesCulprit(v: Value, i: nat, path: seq<Step>, nfc: JsString -> JsString)
    requires v.Arr? && i <= |v.items| && FirstInItems(v, i, path, nfc).Some?
    ensures var e := FirstInItems(v, i, path, nfc).value;
      path <= e.path && Culprit(v, e.path[|path|..], e.reason, nfc)
    decreases v, 1, |v.items| - i
  {
    var here := path + [Index(i)];
    if v.items[i].Hole? {
      ItemRefusalNamesCulprit(v, i + 1, path, nfc);
    } else if v.items[i].Undefined? {
      assert here[|path|..] == [Index(i)];
    } else if FirstRefusal(v.items[i], here, nfc).Some? {
      RefusalNamesCulprit(v.items[i], here, nfc);
      StepDown(path, Index(i), FirstRefusal(v.items[i], here, nfc).value.path);
    } else {
      ItemRefusalNamesCulprit(v, i + 1, path, nfc);
    }
  }

  lemma {:induction false} MemberRefusalNamesCulprit(v: Value, i: nat, path: seq<Step>, nfc: JsString -> JsString)
    requires v.Obj? && i <= |Printed(v.members)| && FirstInMembers(v, i, path, nfc).Some?
    ensures var e := FirstInMembers(v, i, path, nfc).value;
      path <= e.path && Culprit(v, e.path[|path|..], e.reason, nfc)
    decreases v, 1, |Printed(v.members)| - i
  {
    var m := Printed(v.members)[i];
    var here := path + [Name(m.key)];
    if FirstRefusal(PrintedValue(v, i), here, nfc).Some? {
      RefusalNamesCulprit(PrintedValue(v, i), here, nfc);
      StepDown(path, Name(m.key), FirstRefusal(PrintedValue(v, i), here, nfc).value.path);
      assert m in v.members;
    } else {
      MemberRefusalNamesCulprit(v, i + 1, path, nfc);
    }
  }

  lemma StepDown(path: seq<Step>, step: Step, whole: seq<Step>)
    requires path + [step] <= whole
    ensures path <= whole && whole[|path|..] == [step] + whole[|path| + 1..]
  {
    assert whole[|path|] == (path + [step])[|path|];
  }

  // ---- Round trip ----

  lemma {:induction false} NormalIsPlainIff(v: Value, nfc: JsString -> JsString)
    requires WellFormed(v) && Printable(v, nfc)
    ensures Plain(Normal(v, nfc)) <==> HoleFree(v)
    decreases v
  {
    match v
    case Arr(items) =>
      forall i | 0 <= i < |items| && !items[i].Hole?
        ensures Plain(Normal(items[i], nfc)) <==> HoleFree(items[i])
      {
        NormalIsPlainIff(items[i], nfc);
      }
      ArrayIsPlainIff(v, nfc);
    case Obj(members) =>
      forall i | 0 <= i < |members| && !members[i].value.Undefined?
        ensures Plain(Normal(members[i].value, nfc)) <==> HoleFree(members[i].value)
      {
        NormalIsPlainIff(members[i].value, nfc);
      }
      ObjectIsPlainIff(v, nfc);
    case Null =>
    case Bool(_) =>
    case Number(_) =>
    case Str(_) =>
  }

  lemma ArrayIsPlainIff(v: Value, nfc: JsString -> JsString)
    requires v.Arr?
    requires forall i :: 0 <= i < |v.items| && !v.items[i].Hole? ==> (Plain(Normal(v.items[i], nfc)) <==> HoleFree(v.items[i]))
    ensures Plain(Normal(v, nfc)) <==> HoleFree(v)
  {
    var n := Normal(v, nfc).items;
    assert forall i :: 0 <= i < |n| ==> n[i] == Normal(v.items[i], nfc) && (Plain(n[i]) <==> HoleFree(v.items[i]));
  }

  lemma ObjectIsPlainIff(v: Value, nfc: JsString -> JsString)
    requires v.Obj? && DistinctKeys(v.members)
    requires forall i :: 0 <= i < |v.members| && !v.members[i].value.Undefined? ==>
      (Plain(Normal(v.members[i].value, nfc)) <==> HoleFree(v.members[i].value))
    ensures Plain(Normal(v, nfc)) <==> HoleFree(v)
  {
    var n := Normal(v, nfc).members;
    PrintedIsOrdered(v.members);
    forall k | 0 <= k < |n|
      ensures Plain(n[k].value) <==> HoleFree(Printed(v.members)[k].value)
    {
      var j := PrintedMember(v.members, k);
    }
    forall i | 0 <= i < |v.members| && !HoleFree(v.members[i].value)
      ensures !Plain(Normal(v, nfc))
    {
      assert v.members[i] in Printed(v.members);
    }
    forall k | 0 <= k < |n| && !Plain(n[k].value)
      ensures !HoleFree(v)
    {
      var j := PrintedMember(v.members, k);
    }
  }

  /** Main result: reading the output gives the input back, normalized, exactly when no array has a hole. */
  lemma {:induction false} RoundTrip(v: Value, nfc: JsString -> JsString)
    requires WellFormed(v)
    ensures Outcome(v, [], nfc).Ok? <==> Printable(v, nfc)
    ensures Printable(v, nfc) ==> (Parse(Outcome(v, [], nfc).value) == Some(Normal(v, nfc)) <==> HoleFree(v))
  {
    AcceptedIff(v, [], nfc);
    if Printable(v, nfc) {
      NormalIsPlainIff(v, nfc);
      ParseInvertsText(Normal(v, nfc));
    }
  }

  /** The array of one hole is printed, as the empty array is. */
  lemma HolePrintsAsNothing(nfc: JsString -> JsString)
    ensures WellFormed(Arr([Hole])) && Printable(Arr([Hole]), nfc) && !HoleFree(Arr([Hole]))
    ensures Outcome(Arr([Hole]), [], nfc) == Outcome(Arr([]), [], nfc) && !Agree(Arr([Hole]), Arr([]), nfc)
  {
    var v := Arr([Hole]);
    assert FirstInItems(v, 0, [], nfc) == FirstInItems(v, 1, [], nfc) == None;
    assert FirstRefusal(v, [], nfc) == None && Normal(v, nfc).items == [Hole] && Normal(v, nfc) == v;
    assert Text(Hole) == [] && ElementsText([Hole]) == [CLOSE_ARRAY];
    assert Text(v) == [OPEN_ARRAY] + [CLOSE_ARRAY] == [OPEN_ARRAY, CLOSE_ARRAY];
    assert Outcome(v, [], nfc) == Ok([OPEN_ARRAY, CLOSE_ARRAY]);
    assert Normal(Arr([]), nfc).items == [];
    assert Outcome(Arr([]), [], nfc) == Ok([OPEN_ARRAY, CLOSE_ARRAY]);
  }

  // ---- Printing alike ----

  /** The value an object gives to a name; a member that is undefined counts as absent. */
  function Lookup(members: seq<Member>, key: JsString): (r: Option<Value>)
    ensures r.Some? ==> Member(key, r.value) in members && !r.value.Undefined?
  {
    if members == [] then None
    else if members[0].key == key then
      if members[0].value.Undefined? then None
      else assert members[0] == Member(key, members[0].value); Some(members[0].value)
    else Lookup(members[1..], key)
  }

  lemma {:induction false} LookupFinds(members: seq<Member>, j: nat)
    requires DistinctKeys(members) && j < |members| && !members[j].value.Undefined?
    ensures Lookup(members, members[j].key) == Some(members[j].value)
  {
    if j > 0 {
      LookupFinds(members[1..], j - 1);
    }
  }

  /** Equal after normalization: objects as finite maps from names to values. */
  ghost predicate Agree(v: Value, w: Value, nfc: JsString -> JsString)
    decreases v
  {
    match v
    case Str(s) => w.Str? && nfc(s) == nfc(w.s)
    case Arr(items) =>
      w.Arr? && |items| == |w.items| && forall i :: 0 <= i < |items| ==> Agree(items[i], w.items[i], nfc)
    case Obj(members) =>
      w.Obj? &&
      (forall i :: 0 <= i < |members| && !members[i].value.Undefined? ==>
        Lookup(w.members, members[i].key).Some? &&
        Agree(members[i].value, Lookup(w.members, members[i].key).value, nfc)) &&
      (forall j :: 0 <= j < |w.members| && !w.members[j].value.Undefined? ==>
        Lookup(members, w.members[j].key).Some?)
    case _ => v == w
  }

  ghost predicate Settled(v: Value, w: Value, nfc: JsString -> JsString) {
    Normal(v, nfc) == Normal(w, nfc) <==> Agree(v, w, nfc)
  }

  lemma {:induction false} NormalEqualIffAgree(v: Value, w: Value, nfc: JsString -> JsString)
    requires WellFormed(v) && WellFormed(w)
    ensures Normal(v, nfc) == Normal(w, nfc) <==> Agree(v, w, nfc)
    decreases v
  {
    match v
    case Arr(items) =>
      if w.Arr? && |items| == |w.items| {
        forall i | 0 <= i < |items|
          ensures Normal(items[i], nfc) == Normal(w.items[i], nfc) <==> Agree(items[i], w.items[i], nfc)
        {
          if !items[i].Hole? && !w.items[i].Hole? { NormalEqualIffAgree(items[i], w.items[i], nfc); }
        }
        ArrayNormalsEqual(v, w, nfc);
      } else if w.Arr? {
        assert |Normal(v, nfc).items| == |items| && |Normal(w, nfc).items| == |w.items|;
      }
    case Obj(members) =>
      if w.Obj? {
        forall i, j | 0 <= i < |members| && 0 <= j < |w.members|
          ensures Settled(members[i].value, w.members[j].value, nfc)
        {
          NormalEqualIffAgree(members[i].value, w.members[j].value, nfc);
        }
        if Agree(v, w, nfc) {
          AgreeingObjectsNormalizeAlike(v, w, nfc);
        }
        if Normal(v, nfc) == Normal(w, nfc) {
          AlikeObjectsAgree(v, w, nfc);
        }
      }
    case Undefined =>
    case Hole =>
    case Null =>
    case Bool(_) =>
    case Number(_) =>
    case NonFinite =>
    case Str(_) =>
    case Unsupported(_) =>
  }

  lemma ArrayNormalsEqual(v: Value, w: Value, nfc: JsString -> JsString)
    requires v.Arr? && w.Arr? && |v.items| == |w.items|
    ensures Normal(v, nfc) == Normal(w, nfc) <==>
      forall i :: 0 <= i < |v.items| ==> Normal(v.items[i], nfc) == Normal(w.items[i], nfc)
  {
    var a, b := Normal(v, nfc).items, Normal(w, nfc).items;
    assert forall i :: 0 <= i < |a| ==> a[i] == Normal(v.items[i], nfc) && b[i] == Normal(w.items[i], nfc);
    if forall i :: 0 <= i < |v.items| ==> Normal(v.items[i], nfc) == Normal(w.items[i], nfc) {
      assert a == b;
    }
  }

  /** `m`, if it prints, is matched in `others` by a member of the same name with the same normal form. */
  ghost predicate Matched(m: Member, others: seq<Member>, nfc: JsString -> JsString) {
    m.value.Undefined? ||
    exists j: nat :: j < |others| && !others[j].value.Undefined? && others[j].key == m.key &&
      Normal(others[j].value, nfc) == Normal(m.value, nfc)
  }

  lemma AgreeBackward(v: Value, w: Value, j: nat, nfc: JsString -> JsString) returns (i: nat)
    requires v.Obj? && w.Obj? && Agree(v, w, nfc) && j < |w.members| && !w.members[j].value.Undefined?
    ensures i < |v.members| && v.members[i].key == w.members[j].key && !v.members[i].value.Undefined?
  {
    var found := Lookup(v.members, w.members[j].key);
    i :| i < |v.members| && v.members[i] == Member(w.members[j].key, found.value);
  }

  lemma AgreeingMemberMatched(v: Value, w: Value, i: nat, nfc: JsString -> JsString)
    requires v.Obj? && w.Obj? && Agree(v, w, nfc) && i < |v.members|
    requires forall j: nat :: j < |w.members| ==> Settled(v.members[i].value, w.members[j].value, nfc)
    ensures Matched(v.members[i], w.members, nfc)
  {
    var m := v.members[i];
    if !m.value.Undefined? {
      var found := Lookup(w.members, m.key).value;
      var j: nat :| j < |w.members| && w.members[j] == Member(m.key, found);
      assert Settled(m.value, w.members[j].value, nfc);
    }
  }

  lemma AgreeingObjectsNormalizeAlike(v: Value, w: Value, nfc: JsString -> JsString)
    requires v.Obj? && w.Obj? && WellFormed(v) && WellFormed(w) && Agree(v, w, nfc)
    requires forall i, j :: 0 <= i < |v.members| && 0 <= j < |w.members| ==>
      Settled(v.members[i].value, w.members[j].value, nfc)
    ensures Normal(v, nfc) == Normal(w, nfc)
  {
    forall i: nat | i < |v.members|
      ensures Matched(v.members[i], w.members, nfc)
    {
      AgreeingMemberMatched(v, w, i, nfc);
    }
    forall k: nat | k < |Printed(w.members)|
      ensures HasKey(Printed(v.members), Printed(w.members)[k].key)
    {
      var j := PrintedMember(w.members, k);
      var i := AgreeBackward(v, w, j, nfc);
      PrintedHasKey(v.members, i);
    }
    MatchedNormalizeAlike(v, w, nfc);
  }

  lemma PrintedHasKey(members: seq<Member>, i: nat)
    requires i < |members| && !members[i].value.Undefined?
    ensures HasKey(Printed(members), members[i].key)
  {
    assert members[i] in Printed(members);
  }

  lemma MatchedNormalizeAlike(v: Value, w: Value, nfc: JsString -> JsString)
    requires v.Obj? && w.Obj? && WellFormed(v) && WellFormed(w)
    requires forall i: nat :: i < |v.members| ==> Matched(v.members[i], w.members, nfc)
    requires KeysWithin(Printed(w.members), Printed(v.members))
    ensures Normal(v, nfc) == Normal(w, nfc)
  {
    var a, b := Printed(v.members), Printed(w.members);
    PrintedIsOrdered(v.members);
    PrintedIsOrdered(w.members);
    forall i: nat | i < |a|
      ensures HasKey(b, a[i].key)
    {
      var k := PrintedMember(v.members, i);
      MatchIsPrinted(v.members[k], w.members, nfc);
    }
    OrderIsUnique(a, b);
    forall i: nat | i < |a|
      ensures Normal(a[i].value, nfc) == Normal(b[i].value, nfc)
    {
      var k := PrintedMember(v.members, i);
      MatchIsAtSamePlace(v.members[k], w.members, i, nfc);
    }
    SameNormalMembers(v, w, nfc);
  }

  lemma SameNormalMembers(v: Value, w: Value, nfc: JsString -> JsString)
    requires v.Obj? && w.Obj? && |Printed(v.members)| == |Printed(w.members)|
    requires forall i: nat :: i < |Printed(v.members)| ==> Printed(v.members)[i].key == Printed(w.members)[i].key
    requires forall i: nat :: i < |Printed(v.members)| ==>
      Normal(Printed(v.members)[i].value, nfc) == Normal(Printed(w.members)[i].value, nfc)
    ensures Normal(v, nfc) == Normal(w, nfc)
  {
    assert Normal(v, nfc).members == Normal(w, nfc).members;
  }

  lemma MatchIsPrinted(m: Member, others: seq<Member>, nfc: JsString -> JsString)
    requires !m.value.Undefined? && Matched(m, others, nfc)
    ensures HasKey(Printed(others), m.key)
  {
    var j: nat :| j < |others| && !others[j].value.Undefined? && others[j].key == m.key &&
      Normal(others[j].value, nfc) == Normal(m.value, nfc);
    PrintedHasKey(others, j);
  }

  lemma MatchIsAtSamePlace(m: Member, others: seq<Member>, i: nat, nfc: JsString -> JsString)
    requires !m.value.Undefined? && Matched(m, others, nfc) && DistinctKeys(others)
    requires i < |Printed(others)| && Printed(others)[i].key == m.key
    ensures Normal(Printed(others)[i].value, nfc) == Normal(m.value, nfc)
  {
    var j: nat :| j < |others| && !others[j].value.Undefined? && others[j].key == m.key &&
      Normal(others[j].value, nfc) == Normal(m.value, nfc);
    var k := PrintedMember(others, i);
    assert others[k].key == others[j].key;
    assert k == j;
  }

  lemma AlikeObjectsAgree(v: Value, w: Value, nfc: JsString -> JsString)
    requires v.Obj? && w.Obj? && DistinctKeys(v.members) && DistinctKeys(w.members)
    requires Normal(v, nfc) == Normal(w, nfc)
    requires forall i, j :: 0 <= i < |v.members| && 0 <= j < |w.members| ==>
      Settled(v.members[i].value, w.members[j].value, nfc)
    ensures Agree(v, w, nfc)
  {
    forall i: nat | i < |v.members| && !v.members[i].value.Undefined?
      ensures Lookup(w.members, v.members[i].key).Some?
      ensures Agree(v.members[i].value, Lookup(w.members, v.members[i].key).value, nfc)
    {
      var j := Counterpart(v, w, i, nfc);
      LookupFinds(w.members, j);
      assert Settled(v.members[i].value, w.members[j].value, nfc);
    }
    forall j: nat | j < |w.members| && !w.members[j].value.Undefined?
      ensures Lookup(v.members, w.members[j].key).Some?
    {
      var i := Counterpart(w, v, j, nfc);
      LookupFinds(v.members, i);
    }
  }

  lemma Counterpart(v: Value, w: Value, i: nat, nfc: JsString -> JsString) returns (j: nat)
    requires v.Obj? && w.Obj? && Normal(v, nfc) == Normal(w, nfc)
    requires i < |v.members| && !v.members[i].value.Undefined?
    ensures j < |w.members| && v.members[i].key == w.members[j].key && !w.members[j].value.Undefined?
    ensures Normal(v.members[i].value, nfc) == Normal(w.members[j].value, nfc)
  {
    assert v.members[i] in Printed(v.members);
    var k :| 0 <= k < |Printed(v.members)| && Printed(v.members)[k] == v.members[i];
    SamePlace(v, w, k, nfc);
    j := PrintedMember(w.members, k);
  }

  lemma SamePlace(v: Value, w: Value, k: nat, nfc: JsString -> JsString)
    requires v.Obj? && w.Obj? && Normal(v, nfc) == Normal(w, nfc)
    requires k < |Printed(v.members)|
    ensures k < |Printed(w.members)| && Printed(v.members)[k].key == Printed(w.members)[k].key
    ensures Normal(Printed(v.members)[k].value, nfc) == Normal(Printed(w.members)[k].value, nfc)
  {
    var a, b := Normal(v, nfc).members, Normal(w, nfc).members;
    assert a[k] == Member(Printed(v.members)[k].key, Normal(PrintedValue(v, k), nfc));
    assert b[k] == Member(Printed(w.members)[k].key, Normal(PrintedValue(w, k), nfc));
  }

  lemma {:induction false} NormalIsWellFormed(v: Value, nfc: JsString -> JsString)
    requires WellFormed(v)
    ensures WellFormed(Normal(v, nfc))
    decreases v
  {
    match v
    case Arr(items) =>
      forall i | 0 <= i < |items| && !items[i].Hole?
        ensures WellFormed(Normal(items[i], nfc))
      {
        NormalIsWellFormed(items[i], nfc);
      }
    case Obj(members) =>
      var n := Normal(v, nfc).members;
      PrintedIsOrdered(members);
      forall i | 0 <= i < |n|
        ensures WellFormed(n[i].value)
      {
        var j := PrintedMember(members, i);
        NormalIsWellFormed(members[j].value, nfc);
      }
    case Undefined =>
    case Null =>
    case Bool(_) =>
    case Number(_) =>
    case NonFinite =>
    case Str(_) =>
    case Unsupported(_) =>
  }

  lemma {:induction false} NormalIsPrintable(v: Value, nfc: JsString -> JsString)
    requires Printable(v, nfc)
    ensures Printable(Normal(v, nfc), nfc)
    decreases v
  {
    match v
    case Arr(items) =>
      forall i | 0 <= i < |items| && !items[i].Hole?
        ensures Printable(Normal(items[i], nfc), nfc)
      {
        NormalIsPrintable(items[i], nfc);
      }
    case Obj(members) =>
      var n := Normal(v, nfc).members;
      forall i | 0 <= i < |n|
        ensures nfc(n[i].key) == n[i].key && Printable(n[i].value, nfc)
      {
        var j := PrintedMember(members, i);
        NormalIsPrintable(members[j].value, nfc);
      }
    case Null =>
    case Bool(_) =>
    case Number(_) =>
    case Str(_) =>
  }

  /** A single hole prints as nothing: the array that holds it might as well be empty. */
  function Collapsed(v: Value): Value
    decreases v, 1
  {
    match v
    case Arr(items) => if items == [Hole] then Arr([]) else Arr(seq(|items|, i requires 0 <= i < |items| => Collapsed(items[i])))
    case Obj(members) => Obj(CollapsedMembers(members))
    case _ => v
  }

  function CollapsedMembers(members: seq<Member>): (r: seq<Member>)
    ensures |r| == |members|
    ensures forall i :: 0 <= i < |r| ==> r[i].key == members[i].key && r[i].value == Collapsed(members[i].value)
    decreases members, 0
  {
    seq(|members|, i requires 0 <= i < |members| => Member(members[i].key, Collapsed(members[i].value)))
  }

  // Collapsing commutes with choosing, sorting and normalizing.

  lemma CollapsedFirst(members: seq<Member>)
    requires members != []
    ensures CollapsedMembers(members) == [CollapsedMembers(members)[0]] + CollapsedMembers(members[1..])
    ensures CollapsedMembers(members)[1..] == CollapsedMembers(members[1..])
  {
  }

  lemma CollapsedCons(m: Member, members: seq<Member>)
    ensures CollapsedMembers([m] + members) == [Member(m.key, Collapsed(m.value))] + CollapsedMembers(members)
  {
  }

  lemma {:induction false} DefinedCollapses(members: seq<Member>)
    ensures Defined(CollapsedMembers(members)) == CollapsedMembers(Defined(members))
  {
    if members != [] {
      DefinedCollapses(members[1..]);
      CollapsedFirst(members);
      CollapsedCons(members[0], Defined(members[1..]));
    }
  }

  lemma {:induction false} InsertCollapses(m: Member, sorted: seq<Member>)
    ensures Insert(Member(m.key, Collapsed(m.value)), CollapsedMembers(sorted)) == CollapsedMembers(Insert(m, sorted))
  {
    CollapsedCons(m, sorted);
    if sorted != [] && !Less(m.key, sorted[0].key) {
      InsertCollapses(m, sorted[1..]);
      CollapsedFirst(sorted);
      CollapsedCons(sorted[0], Insert(m, sorted[1..]));
    }
  }

  lemma {:induction false} SortCollapses(members: seq<Member>)
    ensures Sort(CollapsedMembers(members)) == CollapsedMembers(Sort(members))
  {
    if members != [] {
      SortCollapses(members[1..]);
      CollapsedFirst(members);
      InsertCollapses(members[0], Sort(members[1..]));
    }
  }

  lemma PrintedCollapses(members: seq<Member>)
    ensures Printed(CollapsedMembers(members)) == CollapsedMembers(Printed(members))
  {
    DefinedCollapses(members);
    SortCollapses(Defined(members));
  }

  lemma {:induction false} NormalCollapses(v: Value, nfc: JsString -> JsString)
    ensures Normal(Collapsed(v), nfc) == Collapsed(Normal(v, nfc))
    decreases v
  {
    match v
    case Arr(items) =>
      forall i | 0 <= i < |items|
        ensures Normal(Collapsed(items[i]), nfc) == Collapsed(Normal(items[i], nfc))
      {
        NormalCollapses(items[i], nfc);
      }
      NormalArrayCollapses(v, nfc);
    case Obj(members) =>
      forall i | 0 <= i < |members|
        ensures Normal(Collapsed(members[i].value), nfc) == Collapsed(Normal(members[i].value, nfc))
      {
        NormalCollapses(members[i].value, nfc);
      }
      NormalObjectCollapses(v, nfc);
    case _ =>
  }

  lemma NormalArrayCollapses(v: Value, nfc: JsString -> JsString)
    requires v.Arr?
    requires forall i :: 0 <= i < |v.items| ==> Normal(Collapsed(v.items[i]), nfc) == Collapsed(Normal(v.items[i], nfc))
    ensures Normal(Collapsed(v), nfc) == Collapsed(Normal(v, nfc))
  {
    var n := Normal(v, nfc).items;
    assert |n| == |v.items| && forall i :: 0 <= i < |n| ==> n[i] == Normal(v.items[i], nfc);
    assert v.items == [Hole] <==> n == [Hole];
    if v.items != [Hole] {
      assert Normal(Collapsed(v), nfc).items == Collapsed(Normal(v, nfc)).items;
    } else {
      assert Normal(Arr([]), nfc).items == [];
    }
  }

  lemma NormalObjectCollapses(v: Value, nfc: JsString -> JsString)
    requires v.Obj?
    requires forall i :: 0 <= i < |v.members| ==> Normal(Collapsed(v.members[i].value), nfc) == Collapsed(Normal(v.members[i].value, nfc))
    ensures Normal(Collapsed(v), nfc) == Collapsed(Normal(v, nfc))
  {
    PrintedCollapses(v.members);
    var a, b := Normal(Collapsed(v), nfc).members, Collapsed(Normal(v, nfc)).members;
    forall i | 0 <= i < |a|
      ensures a[i] == b[i]
    {
      var j := PrintedMember(v.members, i);
    }
    assert a == b;
  }

  /** The text does not tell a collapsed value from the value. */
  lemma {:induction false} CollapsedText(v: Value)
    ensures Text(Collapsed(v)) == Text(v)
    decreases v, 1
  {
    match v
    case Arr(items) =>
      if items == [Hole] {
        assert ElementsText([Hole]) == [CLOSE_ARRAY];
      } else if items != [] {
        CollapsedElements(items, Collapsed(v).items);
      }
    case Obj(members) => if members != [] { CollapsedMembersText(members); }
    case _ =>
  }

  lemma {:induction false} CollapsedElements(items: seq<Value>, collapsed: seq<Value>)
    requires items != [] && |collapsed| == |items| && forall i :: 0 <= i < |items| ==> collapsed[i] == Collapsed(items[i])
    ensures ElementsText(collapsed) == ElementsText(items)
    decreases items, 0
  {
    CollapsedText(items[0]);
    if |items| > 1 { CollapsedElements(items[1..], collapsed[1..]); }
  }

  lemma {:induction false} CollapsedMembersText(members: seq<Member>)
    requires members != []
    ensures MembersText(CollapsedMembers(members)) == MembersText(members)
    decreases members, 0
  {
    CollapsedText(members[0].value);
    CollapsedFirst(members);
    if |members| > 1 { CollapsedMembersText(members[1..]); }
  }

  lemma {:induction false} CollapsedIsWellFormed(v: Value)
    requires WellFormed(v)
    ensures WellFormed(Collapsed(v))
  {
    match v
    case Arr(items) =>
      forall i | 0 <= i < |items| && !items[i].Hole?
        ensures WellFormed(Collapsed(items[i]))
      {
        CollapsedIsWellFormed(items[i]);
      }
    case Obj(members) =>
      forall i | 0 <= i < |members|
        ensures WellFormed(Collapsed(members[i].value))
      {
        CollapsedIsWellFormed(members[i].value);
      }
    case _ =>
  }

  lemma {:induction false} CollapsedNormalIsLegible(v: Value, nfc: JsString -> JsString)
    requires WellFormed(v) && Printable(v, nfc)
    ensures Legible(Collapsed(Normal(v, nfc)))
    decreases v
  {
    match v
    case Arr(items) =>
      forall i | 0 <= i < |items| && !items[i].Hole?
        ensures Legible(Collapsed(Normal(items[i], nfc)))
      {
        CollapsedNormalIsLegible(items[i], nfc);
      }
      CollapsedArrayIsLegible(v, nfc);
    case Obj(members) =>
      PrintedIsOrdered(members);
      forall i | 0 <= i < |Printed(members)|
        ensures Legible(Collapsed(Normal(v, nfc).members[i].value))
      {
        var j := PrintedMember(members, i);
        CollapsedNormalIsLegible(members[j].value, nfc);
      }
    case Null =>
    case Bool(_) =>
    case Number(_) =>
    case Str(_) =>
  }

  lemma CollapsedArrayIsLegible(v: Value, nfc: JsString -> JsString)
    requires v.Arr?
    requires forall i :: 0 <= i < |v.items| && !v.items[i].Hole? ==> Legible(Collapsed(Normal(v.items[i], nfc)))
    ensures Legible(Collapsed(Normal(v, nfc)))
  {
    var n := Normal(v, nfc).items;
    assert forall i :: 0 <= i < |n| ==> n[i] == Normal(v.items[i], nfc);
    if n != [Hole] {
      var c := Collapsed(Normal(v, nfc)).items;
      assert forall i :: 0 <= i < |c| ==> c[i] == Collapsed(n[i]) && (c[i].Hole? || Legible(c[i]));
      assert |c| == 1 ==> c[0] == Collapsed(n[0]) && n[0] != Hole;
    }
  }

  lemma SameTextIff(v: Value, w: Value, nfc: JsString -> JsString)
    requires WellFormed(v) && WellFormed(w) && Printable(v, nfc) && Printable(w, nfc)
    ensures Text(Normal(v, nfc)) == Text(Normal(w, nfc)) <==> Collapsed(Normal(v, nfc)) == Collapsed(Normal(w, nfc))
  {
    var a, b := Normal(v, nfc), Normal(w, nfc);
    CollapsedText(a);
    CollapsedText(b);
    if Text(a) == Text(b) {
      CollapsedNormalIsLegible(v, nfc);
      CollapsedNormalIsLegible(w, nfc);
      TextIsInjective(Collapsed(a), Collapsed(b));
    }
  }

  /**
   Main result: two values print the same text exactly when they agree, whatever the order of members,
   and with an array of one hole read as the empty array.
   */
  lemma {:induction false} PrintsAlikeIff(v: Value, w: Value, nfc: JsString -> JsString)
    requires WellFormed(v) && WellFormed(w) && Printable(v, nfc) && Printable(w, nfc)
    ensures Outcome(v, [], nfc) == Outcome(w, [], nfc) <==> Agree(Collapsed(v), Collapsed(w), nfc)
  {
    AcceptedIff(v, [], nfc);
    AcceptedIff(w, [], nfc);
    SameTextIff(v, w, nfc);
    NormalCollapses(v, nfc);
    NormalCollapses(w, nfc);
    CollapsedIsWellFormed(v);
    CollapsedIsWellFormed(w);
    NormalEqualIffAgree(Collapsed(v), Collapsed(w), nfc);
  }

  lemma {:induction false} HoleFreeStays(v: Value)
    requires HoleFree(v)
    ensures Collapsed(v) == v
    decreases v
  {
    match v
    case Arr(items) =>
      forall i | 0 <= i < |items|
        ensures Collapsed(items[i]) == items[i]
      {
        HoleFreeStays(items[i]);
      }
      assert items != [Hole] by { assert items != [] ==> HoleFree(items[0]); }
      assert Collapsed(v).items == items;
    case Obj(members) =>
      forall i | 0 <= i < |members|
        ensures Collapsed(members[i].value) == members[i].value
      {
        HoleFreeStays(members[i].value);
      }
      assert CollapsedMembers(members) == members;
    case _ =>
  }

  /** Without holes: exactly when they agree. */
  lemma HoleFreePrintAlikeIff(v: Value, w: Value, nfc: JsString -> JsString)
    requires WellFormed(v) && WellFormed(w) && HoleFree(v) && HoleFree(w) && Printable(v, nfc) && Printable(w, nfc)
    ensures Outcome(v, [], nfc) == Outcome(w, [], nfc) <==> Agree(v, w, nfc)
  {
    HoleFreeStays(v);
    HoleFreeStays(w);
    PrintsAlikeIff(v, w, nfc);
  }

  lemma {:induction false} NormalAgrees(v: Value, nfc: JsString -> JsString)
    requires WellFormed(v) && IsNormalization(nfc)
    ensures Agree(Normal(v, nfc), v, nfc)
    decreases v
  {
    match v
    case Arr(items) =>
      forall i | 0 <= i < |items| && !items[i].Hole?
        ensures Agree(Normal(items[i], nfc), items[i], nfc)
      {
        NormalAgrees(items[i], nfc);
      }
    case Obj(members) =>
      forall i: nat | i < |members| && !members[i].value.Undefined?
        ensures Agree(Normal(members[i].value, nfc), members[i].value, nfc)
      {
        NormalAgrees(members[i].value, nfc);
      }
      NormalObjectAgrees(v, nfc);
    case Undefined =>
    case Hole =>
    case Null =>
    case Bool(_) =>
    case Number(_) =>
    case NonFinite =>
    case Str(_) =>
    case Unsupported(_) =>
  }

  lemma NormalObjectAgrees(v: Value, nfc: JsString -> JsString)
    requires v.Obj? && WellFormed(v)
    requires forall i: nat :: i < |v.members| && !v.members[i].value.Undefined? ==>
      Agree(Normal(v.members[i].value, nfc), v.members[i].value, nfc)
    ensures Agree(Normal(v, nfc), v, nfc)
  {
    var n := Normal(v, nfc).members;
    PrintedIsOrdered(v.members);
    forall i: nat | i < |n|
      ensures Lookup(v.members, n[i].key).Some? && Agree(n[i].value, Lookup(v.members, n[i].key).value, nfc)
    {
      var j := PrintedMember(v.members, i);
      LookupFinds(v.members, j);
    }
    forall j: nat | j < |v.members| && !v.members[j].value.Undefined?
      ensures Lookup(n, v.members[j].key).Some?
    {
      assert v.members[j] in Printed(v.members);
      var k :| 0 <= k < |Printed(v.members)| && Printed(v.members)[k] == v.members[j];
      LookupFinds(n, k);
    }
  }

  /** Serializing what was read back gives the same text: a stored form never drifts. */
  lemma {:induction false} CanonicalFormIsStable(v: Value, nfc: JsString -> JsString)
    requires WellFormed(v) && Printable(v, nfc) && IsNormalization(nfc)
    ensures Outcome(Normal(v, nfc), [], nfc) == Outcome(v, [], nfc)
  {
    NormalIsWellFormed(v, nfc);
    NormalAgrees(v, nfc);
    NormalEqualIffAgree(Normal(v, nfc), v, nfc);
    NormalIsPrintable(v, nfc);
    AcceptedIff(v, [], nfc);
    AcceptedIff(Normal(v, nfc), [], nfc);
  }

  // ---- The serializer ----

  function Join(texts: seq<JsString>): JsString
    requires texts != []
  {
    if |texts| == 1 then texts[0] else texts[0] + [COMMA] + Join(texts[1..])
  }

  lemma {:induction false} JoinedElements(items: seq<Value>, texts: seq<JsString>)
    requires items != [] && |texts| == |items| && forall i :: 0 <= i < |items| ==> texts[i] == Text(items[i])
    ensures Join(texts) + [CLOSE_ARRAY] == ElementsText(items)
  {
    if |items| > 1 {
      JoinedElements(items[1..], texts[1..]);
      Associates(texts[0] + [COMMA], Join(texts[1..]), [CLOSE_ARRAY]);
      Associates(texts[0], [COMMA], ElementsText(items[1..]));
    }
  }

  function MemberText(m: Member): JsString {
    Quoted(m.key) + [COLON] + Text(m.value)
  }

  lemma {:induction false} JoinedMembers(members: seq<Member>, texts: seq<JsString>)
    requires members != [] && |texts| == |members|
    requires forall i :: 0 <= i < |members| ==> texts[i] == MemberText(members[i])
    ensures Join(texts) + [CLOSE_OBJECT] == MembersText(members)
  {
    if |members| > 1 {
      JoinedMembers(members[1..], texts[1..]);
      Associates(texts[0] + [COMMA], Join(texts[1..]), [CLOSE_OBJECT]);
      Associates(texts[0], [COMMA], MembersText(members[1..]));
    }
  }

  lemma NormalMemberText(v: Value, i: nat, nfc: JsString -> JsString)
    requires v.Obj? && i < |Printed(v.members)|
    ensures |Normal(v, nfc).members| == |Printed(v.members)|
    ensures MemberText(Normal(v, nfc).members[i]) ==
      Quoted(Printed(v.members)[i].key) + [COLON] + Text(Normal(PrintedValue(v, i), nfc))
  {
  }

  function MemberOutcome(v: Value, i: nat, path: seq<Step>, nfc: JsString -> JsString): Result<JsString, Refusal>
    requires v.Obj? && i < |Printed(v.members)|
  {
    match FirstRefusal(PrintedValue(v, i), path + [Name(Printed(v.members)[i].key)], nfc)
    case Some(e) => Err(e)
    case None => Ok(MemberText(Normal(v, nfc).members[i]))
  }

  lemma MemberOutcomeStep(v: Value, i: nat, path: seq<Step>, nfc: JsString -> JsString)
    requires v.Obj? && i < |Printed(v.members)|
    ensures FirstInMembers(v, i, path, nfc) ==
      match MemberOutcome(v, i, path, nfc)
      case Err(e) => Some(e)
      case Ok(_) => FirstInMembers(v, i + 1, path, nfc)
    ensures MemberOutcome(v, i, path, nfc).Ok? ==>
      MemberOutcome(v, i, path, nfc).value == MemberText(Normal(v, nfc).members[i])
  {
  }

  /** `texts` are the elements before `n`, none of them refused. */
  ghost predicate ItemsDone(v: Value, start: seq<Step>, nfc: JsString -> JsString, n: nat, texts: seq<JsString>)
    requires v.Arr? && n <= |v.items|
  {
    && |texts| == n && FirstInItems(v, 0, start, nfc) == FirstInItems(v, n, start, nfc)
    && forall i :: 0 <= i < n ==> texts[i] == Text(Normal(v, nfc).items[i])
  }

  function ItemOutcome(v: Value, i: nat, path: seq<Step>, nfc: JsString -> JsString): Result<JsString, Refusal>
    requires v.Arr? && i < |v.items|
  {
    if v.items[i].Hole? then Ok([])
    else if v.items[i].Undefined? then Err(Refusal(UndefinedElement, path + [Index(i)]))
    else Outcome(v.items[i], path + [Index(i)], nfc)
  }

  lemma ItemOutcomeStep(v: Value, i: nat, path: seq<Step>, nfc: JsString -> JsString)
    requires v.Arr? && i < |v.items|
    ensures FirstInItems(v, i, path, nfc) ==
      match ItemOutcome(v, i, path, nfc)
      case Err(e) => Some(e)
      case Ok(_) => FirstInItems(v, i + 1, path, nfc)
    ensures ItemOutcome(v, i, path, nfc).Ok? ==> ItemOutcome(v, i, path, nfc).value == Text(Normal(v, nfc).items[i])
  {
  }

  lemma NextItemDone(v: Value, start: seq<Step>, nfc: JsString -> JsString, n: nat, texts: seq<JsString>)
    requires v.Arr? && n < |v.items| && ItemsDone(v, start, nfc, n, texts)
    ensures match ItemOutcome(v, n, start, nfc)
      case Ok(text) => ItemsDone(v, start, nfc, n + 1, texts + [text])
      case Err(e) => Outcome(v, start, nfc) == Err(e)
  {
    ItemOutcomeStep(v, n, start, nfc);
  }

  lemma ItemsText(v: Value, start: seq<Step>, nfc: JsString -> JsString, texts: seq<JsString>)
    requires v.Arr? && ItemsDone(v, start, nfc, |v.items|, texts)
    ensures Outcome(v, start, nfc) ==
      Ok(if texts == [] then [OPEN_ARRAY, CLOSE_ARRAY] else [OPEN_ARRAY] + (Join(texts) + [CLOSE_ARRAY]))
  {
    if texts != [] {
      JoinedElements(Normal(v, nfc).items, texts);
    }
  }

  ghost predicate MembersDone(v: Value, start: seq<Step>, nfc: JsString -> JsString, n: nat, texts: seq<JsString>)
    requires v.Obj? && n <= |Printed(v.members)|
  {
    && |texts| == n && FirstInMembers(v, 0, start, nfc) == FirstInMembers(v, n, start, nfc)
    && forall i :: 0 <= i < n ==> texts[i] == MemberText(Normal(v, nfc).members[i])
  }

  lemma NextMemberDone(v: Value, start: seq<Step>, nfc: JsString -> JsString, n: nat, texts: seq<JsString>)
    requires v.Obj? && n < |Printed(v.members)| && MembersDone(v, start, nfc, n, texts)
    ensures match MemberOutcome(v, n, start, nfc)
      case Ok(text) => MembersDone(v, start, nfc, n + 1, texts + [text])
      case Err(e) => FirstBadName(Printed(v.members), 0, nfc).None? ==> Outcome(v, start, nfc) == Err(e)
  {
    MemberOutcomeStep(v, n, start, nfc);
  }

  lemma MembersTextOf(v: Value, start: seq<Step>, nfc: JsString -> JsString, texts: seq<JsString>)
    requires v.Obj? && MembersDone(v, start, nfc, |Printed(v.members)|, texts)
    requires FirstBadName(Printed(v.members), 0, nfc).None?
    ensures Outcome(v, start, nfc) ==
      Ok(if texts == [] then [OPEN_OBJECT, CLOSE_OBJECT] else [OPEN_OBJECT] + (Join(texts) + [CLOSE_OBJECT]))
  {
    if texts != [] {
      JoinedMembers(Normal(v, nfc).members, texts);
    }
  }

  /** The result of serializing `v` from `start`, and the path then: as before, or where the refusal happened. */
  ghost predicate Serialized(v: Value, start: seq<Step>, nfc: JsString -> JsString, r: Result<JsString, Refusal>, path: seq<Step>) {
    r == Outcome(v, start, nfc) && path == if r.Ok? then start else r.error.path
  }

  /** `canonicalJson` hands a fresh one of these to the recursion. */
  class Serializer {
    const nfc: JsString -> JsString
    var path: seq<Step>
    var encodedKeys: map<JsString, JsString>

    ghost predicate Valid()
      reads this
    {
      IsNormalization(nfc) && |encodedKeys| <= MAX_ENCODED_KEYS &&
      forall key :: key in encodedKeys ==> nfc(key) == key && encodedKeys[key] == Quoted(key)
    }

    constructor (nfc: JsString -> JsString)
      requires IsNormalization(nfc)
      ensures Valid() && path == [] && encodedKeys == map[] && this.nfc == nfc
    {
      this.nfc := nfc;
      path := [];
      encodedKeys := map[];
    }

    /** What has been encoded before decides neither the text nor the refusal. */
    method Serialize(v: Value) returns (r: Result<JsString, Refusal>)
      requires Valid()
      modifies this
      ensures Valid() && Serialized(v, old(path), nfc, r, path)
      decreases v, 4
    {
      match v {
        case Null =>
          r := Ok(NULL);
        case Str(s) =>
          r := Ok(Quoted(if IsAscii(s) then s else nfc(s)));
        case Bool(b) =>
          r := Ok(if b then TRUE else FALSE);
        case Number(token) =>
          r := Ok(token);
        case NonFinite =>
          r := Err(Refusal(NonFiniteNumber, path));
        case Arr(_) =>
          r := SerializeItems(v);
        case Obj(_) =>
          r := SerializeMembers(v);
        case Hole =>
          r := Err(Refusal(UnsupportedType("undefined"), path));
        case Undefined =>
          r := Err(Refusal(UnsupportedType("undefined"), path));
        case Unsupported(kind) =>
          r := Err(Refusal(UnsupportedType(kind), path));
      }
    }

    /** One element of an array; a hole is passed over, and joins as nothing. */
    method SerializeItem(v: Value, index: nat) returns (r: Result<JsString, Refusal>)
      requires Valid() && v.Arr? && index < |v.items|
      modifies this
      ensures Valid() && r == ItemOutcome(v, index, old(path), nfc)
      ensures path == if r.Ok? then old(path) else r.error.path
      decreases v, 1
    {
      if v.items[index].Hole? {
        return Ok([]);
      }
      path := path + [Index(index)];
      if v.items[index].Undefined? {
        return Err(Refusal(UndefinedElement, path));
      }
      r := Serialize(v.items[index]);
      if r.Ok? {
        path := path[..|path| - 1];
      }
    }

    method SerializeItems(v: Value) returns (r: Result<JsString, Refusal>)
      requires Valid() && v.Arr?
      modifies this
      ensures Valid() && Serialized(v, old(path), nfc, r, path)
      decreases v, 2
    {
      ghost var start := path;
      var texts: seq<JsString> := [];
      for index := 0 to |v.items|
        invariant Valid() && path == start && ItemsDone(v, start, nfc, index, texts)
      {
        NextItemDone(v, start, nfc, index, texts);
        var item := SerializeItem(v, index);
        if item.Err? {
          return item;
        }
        texts := texts + [item.value];
      }
      ItemsText(v, start, nfc, texts);
      r := Ok(if texts == [] then [OPEN_ARRAY, CLOSE_ARRAY] else [OPEN_ARRAY] + (Join(texts) + [CLOSE_ARRAY]));
    }

    /** Every name is checked, in order, before any member is serialized; a cached name is known to be normal. */
    method CheckNames(v: Value) returns (bad: Option<JsString>)
      requires Valid() && v.Obj?
      modifies this
      ensures Valid()
      ensures bad == FirstBadName(Printed(v.members), 0, nfc)
      ensures path == if bad.None? then old(path) else old(path) + [Name(bad.value)]
    {
      var members := Printed(v.members);
      for i := 0 to |members|
        invariant Valid() && path == old(path)
        invariant FirstBadName(members, 0, nfc) == FirstBadName(members, i, nfc)
      {
        var key := members[i].key;
        if key !in encodedKeys {
          if nfc(key) != key {
            path := path + [Name(key)];
            return Some(key);
          }
          if |encodedKeys| < MAX_ENCODED_KEYS {
            encodedKeys := encodedKeys[key := Quoted(key)];
          }
        }
      }
      bad := None;
    }

    /** One member: its name is normal, so encoding it afresh or from the cache is the same. */
    method SerializeMember(v: Value, i: nat) returns (r: Result<JsString, Refusal>)
      requires Valid() && v.Obj? && i < |Printed(v.members)|
      modifies this
      ensures Valid() && r == MemberOutcome(v, i, old(path), nfc)
      ensures path == if r.Ok? then old(path) else r.error.path
      decreases v, 1
    {
      var key := Printed(v.members)[i].key;
      path := path + [Name(key)];
      r := Serialize(PrintedValue(v, i));
      if r.Ok? {
        path := path[..|path| - 1];
        NormalMemberText(v, i, nfc);
        var encoded := if key in encodedKeys then encodedKeys[key] else Quoted(key);
        r := Ok(encoded + [COLON] + r.value);
      }
    }

    method SerializeMembers(v: Value) returns (r: Result<JsString, Refusal>)
      requires Valid() && v.Obj?
      modifies this
      ensures Valid() && Serialized(v, old(path), nfc, r, path)
      decreases v, 3
    {
      var bad := CheckNames(v);
      if bad.Some? {
        return Err(Refusal(NameNotNormal, path));
      }
      r := SerializeChecked(v);
    }

    /** The members of an object whose names are normal. */
    method SerializeChecked(v: Value) returns (r: Result<JsString, Refusal>)
      requires Valid() && v.Obj? && FirstBadName(Printed(v.members), 0, nfc).None?
      modifies this
      ensures Valid() && Serialized(v, old(path), nfc, r, path)
      decreases v, 2
    {
      ghost var start := path;
      var count := |Printed(v.members)|;
      var texts: seq<JsString> := [];
      for i := 0 to count
        invariant Valid() && path == start && MembersDone(v, start, nfc, i, texts)
      {
        NextMemberDone(v, start, nfc, i, texts);
        var member := SerializeMember(v, i);
        if member.Err? {
          return member;
        }
        texts := texts + [member.value];
      }
      MembersTextOf(v, start, nfc, texts);
      r := Ok(if texts == [] then [OPEN_OBJECT, CLOSE_OBJECT] else [OPEN_OBJECT] + (Join(texts) + [CLOSE_OBJECT]));
    }
  }

  method CanonicalJsonOf(v: Value, nfc: JsString -> JsString) returns (r: Result<JsString, Refusal>)
    requires IsNormalization(nfc)
    ensures r == Outcome(v, [], nfc)
  {
    var serializer := new Serializer(nfc);
    r := serializer.Serialize(v);
  }
}
