/** The page collector's storage reader: every stored row is either published or counted as omitted. */
module PageStorage {
  import opened Wrappers
  import opened Utf16

  // ---- UTF-8 lengths ----

  /** The scalar values a UTF-16 string stands for; an unpaired surrogate reads as U+FFFD. */
  function CodePoints(s: JsString): seq<int> {
    if s == [] then []
    else if |s| > 1 && IsHighSurrogate(s[0]) && IsLowSurrogate(s[1]) then
      [0x10000 + (s[0] - 0xD800) * 0x400 + (s[1] - 0xDC00)] + CodePoints(s[2..])
    else if IsHighSurrogate(s[0]) || IsLowSurrogate(s[0]) then [0xFFFD] + CodePoints(s[1..])
    else [s[0]] + CodePoints(s[1..])
  }

  /** Section 3 of RFC 3629. */
  function EncodedPoint(c: int): seq<int> {
    if c < 0x80 then [c]
    else if c < 0x800 then [0xC0 + c / 0x40, 0x80 + c % 0x40]
    else if c < 0x1_0000 then [0xE0 + c / 0x1000, 0x80 + c / 0x40 % 0x40, 0x80 + c % 0x40]
    else [0xF0 + c / 0x4_0000, 0x80 + c / 0x1000 % 0x40, 0x80 + c / 0x40 % 0x40, 0x80 + c % 0x40]
  }

  function EncodedPoints(points: seq<int>): seq<int> {
    if points == [] then [] else EncodedPoint(points[0]) + EncodedPoints(points[1..])
  }

  function Utf8(s: JsString): seq<int> {
    EncodedPoints(CodePoints(s))
  }

  lemma Utf8Unfolds(s: JsString)
    requires s != []
    ensures |s| > 1 && IsHighSurrogate(s[0]) && IsLowSurrogate(s[1]) ==> |Utf8(s)| == 4 + |Utf8(s[2..])|
    ensures !(|s| > 1 && IsHighSurrogate(s[0]) && IsLowSurrogate(s[1])) ==>
      |Utf8(s)| == (if s[0] < 0x80 then 1 else if s[0] < 0x800 then 2 else 3) + |Utf8(s[1..])|
  {
    var points := CodePoints(s);
    assert points[1..] == if |s| > 1 && IsHighSurrogate(s[0]) && IsLowSurrogate(s[1]) then CodePoints(s[2..]) else CodePoints(s[1..]);
  }

  /** Main result: the counting loop returns the length of the string's UTF-8 encoding. */
  method Utf8Length(value: JsString) returns (bytes: nat)
    ensures bytes == |Utf8(value)|
  {
    bytes := 0;
    var index := 0;
    while index < |value|
      invariant 0 <= index <= |value|
      invariant bytes + |Utf8(value[index..])| == |Utf8(value)|
    {
      var rest := value[index..];
      Utf8Unfolds(rest);
      assert rest[1..] == value[index + 1..];
      var code := value[index];
      if code <= 0x7F {
        bytes := bytes + 1;
      } else if code <= 0x7FF {
        bytes := bytes + 2;
      } else if 0xD800 <= code <= 0xDBFF && index + 1 < |value| {
        var next := value[index + 1];
        assert rest[1] == next;
        if 0xDC00 <= next <= 0xDFFF {
          assert rest[2..] == value[index + 2..];
          bytes := bytes + 4;
          index := index + 1;
        } else {
          bytes := bytes + 3;
        }
      } else {
        bytes := bytes + 3;
      }
      index := index + 1;
    }
    assert value[index..] == [];
  }

  // ---- Storage rows ----

  /** What `key(index)` and `getItem(key)` give for one stored row. */
  datatype Row = Row(key: Option<JsString>, stored: Option<JsString>)

  datatype Limits = Limits(maxRecords: nat, maxKeyChars: nat, maxTotalKeyChars: nat, maxTotalValueChars: nat)

  datatype Published = Published(area: string, key: JsString, valueBytes: nat)

  const LOCAL := "localStorage"
  const SESSION := "sessionStorage"

  datatype Stored = Stored(area: string, row: Row)

  function Tagged(area: string, rows: seq<Row>): (all: seq<Stored>)
    ensures |all| == |rows| && forall i :: 0 <= i < |rows| ==> all[i] == Stored(area, rows[i])
  {
    seq(|rows|, i requires 0 <= i < |rows| => Stored(area, rows[i]))
  }

  function AllRows(local: seq<Row>, session: seq<Row>): seq<Stored> {
    Tagged(LOCAL, local) + Tagged(SESSION, session)
  }

  function ValueOf(row: Row): JsString {
    if row.stored.Some? then row.stored.value else []
  }

  predicate Nameable(row: Row, limits: Limits) {
    row.key.Some? && |row.key.value| <= limits.maxKeyChars
  }

  function PublishedRow(s: Stored): Published
    requires s.row.key.Some?
  {
    Published(s.area, s.row.key.value, |Utf8(ValueOf(s.row))|)
  }

  /** The nameable ones of the first `n` rows, as published, in order. */
  function PublishedUpTo(rows: seq<Stored>, n: nat, limits: Limits): (records: seq<Published>)
    requires n <= |rows|
    ensures |records| <= n
    ensures forall i :: 0 <= i < |records| ==> |records[i].key| <= limits.maxKeyChars
  {
    if n == 0 then []
    else PublishedUpTo(rows, n - 1, limits) + if Nameable(rows[n - 1].row, limits) then [PublishedRow(rows[n - 1])] else []
  }

  /** The lengths of the keys of the nameable ones of the first `n` rows, together. */
  function KeyChars(rows: seq<Stored>, n: nat, limits: Limits): nat
    requires n <= |rows|
  {
    if n == 0 then 0
    else KeyChars(rows, n - 1, limits) + if Nameable(rows[n - 1].row, limits) then |rows[n - 1].row.key.value| else 0
  }

  /** The lengths of their values, together. */
  function ValueChars(rows: seq<Stored>, n: nat, limits: Limits): nat
    requires n <= |rows|
  {
    if n == 0 then 0
    else ValueChars(rows, n - 1, limits) + if Nameable(rows[n - 1].row, limits) then |ValueOf(rows[n - 1].row)| else 0
  }

  /** A budget is spent when row `n` is reached. */
  predicate StopsAt(rows: seq<Stored>, n: nat, limits: Limits)
    requires n < |rows|
  {
    || limits.maxRecords * 2 <= n
    || limits.maxRecords <= |PublishedUpTo(rows, n, limits)|
    || (Nameable(rows[n].row, limits) &&
        (limits.maxTotalKeyChars < KeyChars(rows, n, limits) + |rows[n].row.key.value| ||
         limits.maxTotalValueChars < ValueChars(rows, n, limits) + |ValueOf(rows[n].row)|))
  }

  predicate IsFirstStop(rows: seq<Stored>, n: nat, limits: Limits) {
    n <= |rows| && (n < |rows| ==> StopsAt(rows, n, limits)) && forall i :: 0 <= i < n ==> !StopsAt(rows, i, limits)
  }

  /** A row is taken, passed over, or the one at which everything left is counted as omitted. */
  datatype Reading = Reading(records: seq<Published>, omittedCount: nat, totalKeyChars: nat, totalValueChars: nat,
                             inspectedRows: nat, stopped: bool)

  /** What `r` is when the first `n` rows have been read, and perhaps the next one stopped it. */
  ghost predicate ReadUpTo(rows: seq<Stored>, n: nat, limits: Limits, r: Reading) {
    match r
    case Reading(records, omittedCount, totalKeyChars, totalValueChars, inspectedRows, stopped) =>
      && n <= |rows|
      && (forall i :: 0 <= i < n ==> !StopsAt(rows, i, limits))
      && records == PublishedUpTo(rows, n, limits)
      && totalKeyChars == KeyChars(rows, n, limits)
      && totalValueChars == ValueChars(rows, n, limits)
      && |records| + omittedCount == (if stopped then |rows| else n)
      && (stopped ==> n < |rows| && StopsAt(rows, n, limits))
      && (!stopped ==> inspectedRows == n)
  }

  /** Row `n` stopped the reading, or has been read. */
  ghost predicate ReadOneMore(rows: seq<Stored>, n: nat, limits: Limits, next: Reading) {
    ReadUpTo(rows, if next.stopped then n else n + 1, limits, next)
  }

  lemma StopsHere(rows: seq<Stored>, n: nat, limits: Limits, r: Reading, left: nat)
    requires n < |rows| && left == |rows| - n && !r.stopped && ReadUpTo(rows, n, limits, r) && StopsAt(rows, n, limits)
    ensures ReadOneMore(rows, n, limits, r.(omittedCount := r.omittedCount + left, stopped := true))
  {
  }

  lemma PublishesHere(rows: seq<Stored>, n: nat, limits: Limits, r: Reading, valueBytes: nat)
    requires n < |rows| && !r.stopped && ReadUpTo(rows, n, limits, r)
    requires !StopsAt(rows, n, limits) && Nameable(rows[n].row, limits)
    requires valueBytes == |Utf8(ValueOf(rows[n].row))|
    ensures ReadOneMore(rows, n, limits, r.(
      records := r.records + [Published(rows[n].area, rows[n].row.key.value, valueBytes)],
      totalKeyChars := r.totalKeyChars + |rows[n].row.key.value|,
      totalValueChars := r.totalValueChars + |ValueOf(rows[n].row)|,
      inspectedRows := r.inspectedRows + 1))
  {
  }

  lemma OmitsHere(rows: seq<Stored>, n: nat, limits: Limits, r: Reading)
    requires n < |rows| && !r.stopped && ReadUpTo(rows, n, limits, r)
    requires !StopsAt(rows, n, limits) && !Nameable(rows[n].row, limits)
    ensures ReadOneMore(rows, n, limits, r.(omittedCount := r.omittedCount + 1, inspectedRows := r.inspectedRows + 1))
  {
  }

  /** The body of the inner loop for row `n`; `left` is `remainingRows`. */
  method ReadRow(ghost rows: seq<Stored>, ghost n: nat, area: string, row: Row, left: nat, limits: Limits, r: Reading)
    returns (next: Reading)
    requires n < |rows| && rows[n] == Stored(area, row) && left == |rows| - n
    requires !r.stopped && ReadUpTo(rows, n, limits, r)
    ensures ReadOneMore(rows, n, limits, next)
  {
    if r.inspectedRows >= limits.maxRecords * 2 {
      StopsHere(rows, n, limits, r, left);
      return r.(omittedCount := r.omittedCount + left, stopped := true);
    }
    if |r.records| >= limits.maxRecords {
      StopsHere(rows, n, limits, r, left);
      return r.(omittedCount := r.omittedCount + left, stopped := true);
    }
    if row.key.None? || |row.key.value| > limits.maxKeyChars {
      OmitsHere(rows, n, limits, r);
      return r.(omittedCount := r.omittedCount + 1, inspectedRows := r.inspectedRows + 1);
    }
    var key := row.key.value;
    if r.totalKeyChars + |key| > limits.maxTotalKeyChars {
      StopsHere(rows, n, limits, r, left);
      return r.(omittedCount := r.omittedCount + left, stopped := true);
    }
    var value := if row.stored.Some? then row.stored.value else [];
    if r.totalValueChars + |value| > limits.maxTotalValueChars {
      StopsHere(rows, n, limits, r, left);
      return r.(omittedCount := r.omittedCount + left, stopped := true);
    }
    var valueBytes := Utf8Length(value);
    PublishesHere(rows, n, limits, r, valueBytes);
    next := r.(
      records := r.records + [Published(area, key, valueBytes)],
      totalKeyChars := r.totalKeyChars + |key|,
      totalValueChars := r.totalValueChars + |value|,
      inspectedRows := r.inspectedRows + 1);
  }

  lemma AreaRows(local: seq<Row>, session: seq<Row>)
    ensures |AllRows(local, session)| == |local| + |session|
    ensures forall i :: 0 <= i < |local| ==> AllRows(local, session)[0 + i] == Stored(LOCAL, local[i])
    ensures forall i :: 0 <= i < |session| ==> AllRows(local, session)[|local| + i] == Stored(SESSION, session[i])
  {
    var all, first, second := AllRows(local, session), Tagged(LOCAL, local), Tagged(SESSION, session);
    forall i | 0 <= i < |local|
      ensures all[0 + i] == Stored(LOCAL, local[i])
    {
      assert all[i] == first[i];
    }
    forall i | 0 <= i < |session|
      ensures all[|local| + i] == Stored(SESSION, session[i])
    {
      assert all[|local| + i] == second[i];
    }
  }

  /** One storage area; `later` rows follow it. */
  method ReadArea(ghost rows: seq<Stored>, ghost offset: nat, area: string, stored: seq<Row>, later: nat, limits: Limits, r: Reading)
      returns (next: Reading, ghost read: nat)
    requires !r.stopped && ReadUpTo(rows, offset, limits, r) && offset + |stored| + later == |rows|
    requires forall i :: 0 <= i < |stored| ==> rows[offset + i] == Stored(area, stored[i])
    ensures ReadUpTo(rows, read, limits, next) && (!next.stopped ==> read == offset + |stored|)
  {
    next, read := r, offset;
    var index := 0;
    while index < |stored| && !next.stopped
      invariant 0 <= index <= |stored|
      invariant ReadUpTo(rows, read, limits, next) && (!next.stopped ==> read == offset + index)
      decreases |stored| - index, !next.stopped
    {
      next := ReadRow(rows, read, area, stored[index], (|stored| - index) + later, limits, next);
      if !next.stopped {
        read := read + 1;
        index := index + 1;
      }
    }
  }

  /**
   Main result: the published records are exactly the nameable rows before the first spent budget, in
   order, and they and the omitted count together account for every stored row.
   */
  method CollectStorage(local: seq<Row>, session: seq<Row>, limits: Limits)
    returns (records: seq<Published>, omittedCount: nat, truncated: bool)
    ensures exists n: nat :: IsFirstStop(AllRows(local, session), n, limits) &&
                             records == PublishedUpTo(AllRows(local, session), n, limits)
    ensures |records| + omittedCount == |local| + |session|
    ensures truncated <==> |records| < |local| + |session|
  {
    ghost var rows := AllRows(local, session);
    ghost var read := 0;
    var r := Reading([], 0, 0, 0, 0, false);
    var areas := [(LOCAL, local), (SESSION, session)];
    var areaIndex := 0;
    assert ReadUpTo(rows, 0, limits, r);
    while areaIndex < 2 && !r.stopped
      invariant 0 <= areaIndex <= 2
      invariant ReadUpTo(rows, read, limits, r)
      invariant !r.stopped ==> read == if areaIndex == 0 then 0 else if areaIndex == 1 then |local| else |rows|
      decreases 2 - areaIndex
    {
      var (area, stored) := areas[areaIndex];
      var later := if areaIndex == 0 then |session| else 0;
      AreaRows(local, session);
      r, read := ReadArea(rows, read, area, stored, later, limits, r);
      areaIndex := areaIndex + 1;
    }
    records, omittedCount, truncated := r.records, r.omittedCount, r.omittedCount > 0;
    ReadingEnds(rows, read, limits, r);
  }

  lemma ReadingEnds(rows: seq<Stored>, n: nat, limits: Limits, r: Reading)
    requires ReadUpTo(rows, n, limits, r) && (!r.stopped ==> n == |rows|)
    ensures IsFirstStop(rows, n, limits) && r.records == PublishedUpTo(rows, n, limits)
    ensures |r.records| + r.omittedCount == |rows|
  {
  }

  /** Main result: whatever the page stored, what is published stays inside every budget. */
  lemma PublishedWithinBudgets(rows: seq<Stored>, n: nat, limits: Limits)
    requires IsFirstStop(rows, n, limits)
    ensures n <= limits.maxRecords * 2
    ensures |PublishedUpTo(rows, n, limits)| <= limits.maxRecords
    ensures KeyChars(rows, n, limits) <= limits.maxTotalKeyChars
    ensures ValueChars(rows, n, limits) <= limits.maxTotalValueChars
  {
    if n > 0 {
      assert !StopsAt(rows, n - 1, limits);
      BudgetsAtEnd(rows, n, limits);
    }
  }

  lemma {:induction false} BudgetsAtEnd(rows: seq<Stored>, n: nat, limits: Limits)
    requires n <= |rows| && forall i :: 0 <= i < n ==> !StopsAt(rows, i, limits)
    ensures KeyChars(rows, n, limits) <= limits.maxTotalKeyChars
    ensures ValueChars(rows, n, limits) <= limits.maxTotalValueChars
  {
    if n > 0 {
      BudgetsAtEnd(rows, n - 1, limits);
      BudgetsStep(rows, n - 1, limits);
    }
  }

  lemma BudgetsStep(rows: seq<Stored>, n: nat, limits: Limits)
    requires n < |rows| && !StopsAt(rows, n, limits)
    requires KeyChars(rows, n, limits) <= limits.maxTotalKeyChars
    requires ValueChars(rows, n, limits) <= limits.maxTotalValueChars
    ensures KeyChars(rows, n + 1, limits) <= limits.maxTotalKeyChars
    ensures ValueChars(rows, n + 1, limits) <= limits.maxTotalValueChars
  {
  }
}
