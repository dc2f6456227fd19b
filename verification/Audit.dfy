/** The token audit log and its cursor paging (src/mock_idp/store/pg_store.py,
    write_token_event and query_audit). Ids rise in append order. */
module Audit {
  import opened Wrappers
  import opened Tokens

  datatype Row = Row(
    id: nat, org: string, issuer: string, grantType: string, sub: string,
    aud: Value, iat: int, exp: int, jti: Value, raw: Claims)

  predicate AllAbove(rows: seq<Row>, id: nat) {
    forall r :: r in rows ==> r.id > id
  }

  /** Rows in rising id order. */
  predicate Rising(rows: seq<Row>) {
    rows == [] || (AllAbove(rows[1..], rows[0].id) && Rising(rows[1..]))
  }

  /** The table with ids from its sequence: rising, from 1 on, and all below `next`. */
  ghost predicate SequenceIds(rows: seq<Row>, next: nat) {
    next >= 1 && Rising(rows) && AllAbove(rows, 0) && forall r :: r in rows ==> r.id < next
  }

  // ── Writing ───────────────────────────────────────────────────────────────

  function TextOf(event: Claims, column: string): Option<string> {
    if column !in event then Some("") else if event[column].Str? then Some(event[column].s) else None
  }

  /** `int(event.get(column, 0))`, on numbers and on text, for a BIGINT column. */
  function NumberOf(event: Claims, column: string, parse: ParseInt): Option<int> {
    if column !in event then Some(0)
    else
      match event[column]
      case Num(n) => Bigint(n)
      case Str(s) => if parse(s).Some? then Bigint(parse(s).value) else None
      case _ => None
  }

  function Bigint(n: int): Option<int> {
    if -0x8000_0000_0000_0000 <= n < 0x8000_0000_0000_0000 then Some(n) else None
  }

  function NullableText(event: Claims, column: string): Option<Value> {
    if column !in event then Some(Null)
    else if event[column].Str? || event[column].Null? then Some(event[column])
    else None
  }

  /** The row for an event, or None where a column value is refused and the failure is swallowed. */
  function RowFor(id: nat, org: string, event: Claims, parse: ParseInt): Option<Row> {
    var issuer, grantType, sub := TextOf(event, "iss"), TextOf(event, "grant_type"), TextOf(event, "sub");
    var iat, exp := NumberOf(event, "iat", parse), NumberOf(event, "exp", parse);
    var aud, jti := NullableText(event, "aud"), NullableText(event, "jti");
    if issuer.Some? && grantType.Some? && sub.Some? && iat.Some? && exp.Some? && aud.Some? && jti.Some? then
      Some(Row(id, org, issuer.value, grantType.value, sub.value, aud.value, iat.value, exp.value, jti.value, event))
    else None
  }

  predicate FitsBigint(n: int) {
    -9223372036854775808 <= n <= 9223372036854775807
  }

  /** Does the column accept the event's claim: missing, a number, or a text that reads as one? */
  predicate NumericOrMissing(event: Claims, column: string, parse: ParseInt) {
    column in event ==>
      || (event[column].Num? && FitsBigint(event[column].n))
      || (event[column].Str? && parse(event[column].s).Some? && FitsBigint(parse(event[column].s).value))
  }

  /** The events that get a row. */
  predicate Recordable(event: Claims, parse: ParseInt) {
    && (forall c :: c in {"iss", "grant_type", "sub"} && c in event ==> event[c].Str?)
    && (forall c :: c in {"aud", "jti"} && c in event ==> event[c].Str? || event[c].Null?)
    && NumericOrMissing(event, "iat", parse) && NumericOrMissing(event, "exp", parse)
  }

  predicate HoldsText(value: string, event: Claims, column: string) {
    if column in event then event[column] == Str(value) else value == ""
  }

  predicate HoldsNullable(value: Value, event: Claims, column: string) {
    value == if column in event then event[column] else Null
  }

  predicate HoldsNumber(value: int, event: Claims, column: string, parse: ParseInt) {
    if column !in event then value == 0
    else event[column] == Num(value) || (event[column].Str? && parse(event[column].s) == Some(value))
  }

  /** The row holds the event column by column, for this organisation and under this id. */
  predicate RecordOf(row: Row, id: nat, org: string, event: Claims, parse: ParseInt) {
    && row.id == id && row.org == org && row.raw == event
    && HoldsText(row.issuer, event, "iss")
    && HoldsText(row.grantType, event, "grant_type")
    && HoldsText(row.sub, event, "sub")
    && HoldsNullable(row.aud, event, "aud")
    && HoldsNullable(row.jti, event, "jti")
    && HoldsNumber(row.iat, event, "iat", parse)
    && HoldsNumber(row.exp, event, "exp", parse)
  }

  /** An event gets a row exactly if it is recordable, and the row holds it. */
  lemma RowHoldsEvent(id: nat, org: string, event: Claims, parse: ParseInt)
    ensures RowFor(id, org, event, parse).Some? <==> Recordable(event, parse)
    ensures RowFor(id, org, event, parse).Some? ==>
              RecordOf(RowFor(id, org, event, parse).value, id, org, event, parse)
  {
  }

  class TokenEvents {
    var rows: seq<Row>
    var next: nat

    constructor ()
      ensures rows == [] && SequenceIds(rows, next)
    {
      rows := [];
      next := 1;
    }

    /** Appends one row under a new id, or leaves the rows alone; what is appended is what the
        organisation's next answers have more. `skipped` stands for ids the sequence handed to inserts
        that were rolled back. */
    method WriteTokenEvent(org: string, event: Claims, skipped: nat, parse: ParseInt)
      requires SequenceIds(rows, next)
      modifies this
      ensures SequenceIds(rows, next)
      ensures !Recordable(event, parse) ==> rows == old(rows)
      ensures Recordable(event, parse) ==>
                && |rows| == |old(rows)| + 1 && rows[..|old(rows)|] == old(rows)
                && RecordOf(rows[|old(rows)|], old(next) + skipped, org, event, parse)
                && forall o, c :: RowsAbove(rows, o, c) == RowsAbove(old(rows), o, c)
                                  + if o == org && old(next) + skipped > c then [rows[|old(rows)|]] else []
    {
      var id := next + skipped;
      next := id + 1;
      var row := RowFor(id, org, event, parse);
      RowHoldsEvent(id, org, event, parse);
      if row.Some? {
        RisingAtEnd(rows, row.value);
        forall o, c ensures RowsAbove(rows + [row.value], o, c) == RowsAbove(rows, o, c)
                            + if o == org && id > c then [row.value] else []
        {
          WrittenRowIsAnswered(rows, row.value, o, c);
        }
        rows := rows + [row.value];
      }
    }

    method QueryAudit(org: string, limit: nat, cursor: nat) returns (events: seq<Row>, nextCursor: Option<nat>)
      requires limit >= 1
      ensures events == Page(rows, org, limit, cursor).0 && nextCursor == Page(rows, org, limit, cursor).1
    {
      ghost var answer := RowsAbove(rows, org, cursor);
      var fetched := Take(RowsAbove(rows, org, cursor), limit + 1);
      var hasMore := |fetched| > limit;
      events := Take(fetched, limit);
      assert answer[..|answer|] == answer && events == answer[..|events|];
      nextCursor := if hasMore then Some(events[|events| - 1].id) else None;
    }
  }

  // ── Reading ───────────────────────────────────────────────────────────────

  function Take(s: seq<Row>, n: nat): (r: seq<Row>)
    ensures r <= s && |r| == if |s| < n then |s| else n
  {
    if |s| < n then s else s[..n]
  }

  /** WHERE org_id = $1 AND id > $2 ORDER BY id, on a table in id order. */
  function RowsAbove(rows: seq<Row>, org: string, cursor: nat): seq<Row> {
    if rows == [] then []
    else (if rows[0].org == org && rows[0].id > cursor then [rows[0]] else []) + RowsAbove(rows[1..], org, cursor)
  }

  /** The front of the answer, and the id of its last row when the answer goes on. */
  function Page(rows: seq<Row>, org: string, limit: nat, cursor: nat): (seq<Row>, Option<nat>)
    requires limit >= 1
  {
    var answer := RowsAbove(rows, org, cursor);
    if |answer| > limit then (answer[..limit], Some(answer[limit - 1].id)) else (answer, None)
  }

  /** A client following next_cursor. Before page k+1 is fetched, `batches[k]` is appended by
      others; the walk ends with the first page without a cursor or when no batch is left. */
  datatype Walk = Walk(delivered: seq<Row>, rows: seq<Row>, cursor: Option<nat>)

  function Follow(rows: seq<Row>, org: string, limit: nat, cursor: nat, batches: seq<seq<Row>>): Walk
    requires limit >= 1
    decreases |batches|
  {
    if batches == [] then Walk([], rows, Some(cursor))
    else
      var now := rows + batches[0];
      var (page, next) := Page(now, org, limit, cursor);
      if next.None? then Walk(page, now, None)
      else
        var rest := Follow(now, org, limit, next.value, batches[1..]);
        rest.(delivered := page + rest.delivered)
  }

  function Flatten(batches: seq<seq<Row>>): seq<Row> {
    if batches == [] then [] else batches[0] + Flatten(batches[1..])
  }

  lemma {:induction false} RowsAboveAppend(a: seq<Row>, b: seq<Row>, org: string, cursor: nat)
    ensures RowsAbove(a + b, org, cursor) == RowsAbove(a, org, cursor) + RowsAbove(b, org, cursor)
  {
    if a == [] {
      assert a + b == b;
    } else {
      assert (a + b)[1..] == a[1..] + b;
      RowsAboveAppend(a[1..], b, org, cursor);
    }
  }

  /** What writing adds to the answers: the new row, for its organisation and below its id. */
  lemma WrittenRowIsAnswered(rows: seq<Row>, row: Row, org: string, cursor: nat)
    ensures RowsAbove(rows + [row], org, cursor)
            == RowsAbove(rows, org, cursor) + if row.org == org && row.id > cursor then [row] else []
  {
    RowsAboveAppend(rows, [row], org, cursor);
  }

  lemma {:induction false} RisingAppend(a: seq<Row>, b: seq<Row>)
    requires Rising(a + b)
    ensures Rising(a) && Rising(b)
    ensures forall r :: r in a ==> AllAbove(b, r.id)
  {
    if a == [] {
      assert a + b == b;
    } else {
      var tail := (a + b)[1..];
      assert tail == a[1..] + b;
      RisingAppend(a[1..], b);
      forall r | r in a ensures AllAbove(b, r.id) {
        if r != a[0] { assert r in a[1..]; }
      }
    }
  }

  lemma {:induction false} RisingAtEnd(rows: seq<Row>, last: Row)
    requires Rising(rows) && forall r :: r in rows ==> r.id < last.id
    ensures Rising(rows + [last])
  {
    if rows != [] {
      RisingAtEnd(rows[1..], last);
      assert (rows + [last])[1..] == rows[1..] + [last];
    }
  }

  lemma {:induction false} AnswerAbove(rows: seq<Row>, org: string, cursor: nat, id: nat)
    requires AllAbove(rows, id)
    ensures AllAbove(RowsAbove(rows, org, cursor), id)
  {
    if rows != [] {
      AnswerAbove(rows[1..], org, cursor, id);
    }
  }

  lemma {:induction false} AnswerRises(rows: seq<Row>, org: string, cursor: nat)
    requires Rising(rows)
    ensures Rising(RowsAbove(rows, org, cursor))
  {
    if rows != [] {
      AnswerRises(rows[1..], org, cursor);
      AnswerAbove(rows[1..], org, cursor, rows[0].id);
      var rest, answer := RowsAbove(rows[1..], org, cursor), RowsAbove(rows, org, cursor);
      if answer != rest {
        assert answer == [rows[0]] + rest && answer[1..] == rest;
      }
    }
  }

  /** The query returns exactly the organisation's rows above the cursor. */
  lemma {:induction false} AnswerMembers(rows: seq<Row>, org: string, cursor: nat, r: Row)
    ensures r in RowsAbove(rows, org, cursor) <==> r in rows && r.org == org && r.id > cursor
  {
    if rows != [] {
      AnswerMembers(rows[1..], org, cursor, r);
      assert r in rows <==> r == rows[0] || r in rows[1..];
    }
  }

  lemma {:induction false} SameAnswerAbove(rows: seq<Row>, org: string, low: nat, high: nat)
    requires AllAbove(rows, low) && AllAbove(rows, high)
    ensures RowsAbove(rows, org, low) == RowsAbove(rows, org, high)
  {
    if rows != [] {
      SameAnswerAbove(rows[1..], org, low, high);
    }
  }

  /** Rows above the n-th row of the answer are the rest of the answer. */
  lemma {:induction false} RowsAboveContinue(rows: seq<Row>, org: string, cursor: nat, n: nat)
    requires Rising(rows) && 0 < n <= |RowsAbove(rows, org, cursor)|
    ensures var answer := RowsAbove(rows, org, cursor);
            RowsAbove(rows, org, answer[n - 1].id) == answer[n..]
  {
    var tail := rows[1..];
    var rest, answer := RowsAbove(tail, org, cursor), RowsAbove(rows, org, cursor);
    AnswerAbove(tail, org, cursor, rows[0].id);
    if answer == rest {
      RowsAboveContinue(tail, org, cursor, n);
    } else if n == 1 {
      assert answer == [rows[0]] + rest;
      AboveBoth(tail, rows[0].id, cursor);
      SameAnswerAbove(tail, org, cursor, rows[0].id);
    } else {
      assert answer == [rows[0]] + rest;
      RowsAboveContinue(tail, org, cursor, n - 1);
      assert answer[n - 1] == rest[n - 2];
    }
  }

  lemma AboveBoth(rows: seq<Row>, high: nat, low: nat)
    requires AllAbove(rows, high) && low <= high
    ensures AllAbove(rows, low)
  {
  }

  /** A page is the front of the answer; with a cursor the rest of the answer is above it, and
      without one nothing is left. */
  lemma PageSplitsAnswer(rows: seq<Row>, org: string, limit: nat, cursor: nat)
    requires Rising(rows) && limit >= 1
    ensures var p := Page(rows, org, limit, cursor);
            && (p.1.Some? ==> |p.0| == limit && RowsAbove(rows, org, cursor) == p.0 + RowsAbove(rows, org, p.1.value))
            && (p.1.None? ==> |p.0| <= limit && RowsAbove(rows, org, cursor) == p.0)
  {
    var answer := RowsAbove(rows, org, cursor);
    if |answer| > limit {
      RowsAboveContinue(rows, org, cursor, limit);
      assert answer == answer[..limit] + answer[limit..];
    }
  }

  /** The cursor is the id of a row of the table, above the cursor it was asked with. */
  lemma CursorRow(rows: seq<Row>, org: string, limit: nat, cursor: nat) returns (r: Row)
    requires limit >= 1 && Page(rows, org, limit, cursor).1.Some?
    ensures r in rows && r.id == Page(rows, org, limit, cursor).1.value > cursor
  {
    r := RowsAbove(rows, org, cursor)[limit - 1];
    AnswerMembers(rows, org, cursor, r);
  }

  /** Rows appended later are above the old cursor and above the new one. */
  lemma LaterRowsAbove(now: seq<Row>, later: seq<Row>, org: string, limit: nat, cursor: nat)
    requires Rising(now + later) && limit >= 1 && Page(now, org, limit, cursor).1.Some?
    ensures RowsAbove(later, org, cursor) == RowsAbove(later, org, Page(now, org, limit, cursor).1.value)
  {
    var r := CursorRow(now, org, limit, cursor);
    RisingAppend(now, later);
    AboveBoth(later, r.id, cursor);
    SameAnswerAbove(later, org, cursor, r.id);
  }

  /** Which of the appended rows the walk has seen. */
  lemma {:induction false} WalkSees(
      rows: seq<Row>, org: string, limit: nat, cursor: nat, batches: seq<seq<Row>>)
    returns (seen: seq<Row>, unseen: seq<Row>)
    requires limit >= 1
    ensures Flatten(batches) == seen + unseen
    ensures Follow(rows, org, limit, cursor, batches).rows == rows + seen
    decreases |batches|
  {
    if batches == [] {
      seen, unseen := [], [];
      assert rows + seen == rows;
    } else {
      var now := rows + batches[0];
      var next := Page(now, org, limit, cursor).1;
      if next.None? {
        seen, unseen := batches[0], Flatten(batches[1..]);
      } else {
        var more, left := WalkSees(now, org, limit, next.value, batches[1..]);
        seen, unseen := batches[0] + more, left;
        assert now + more == rows + seen;
      }
    }
  }

  /** A page with a cursor is the front of the answer on any later table too. */
  lemma PageThenLater(now: seq<Row>, seen: seq<Row>, org: string, limit: nat, cursor: nat)
    requires Rising(now + seen) && limit >= 1 && Page(now, org, limit, cursor).1.Some?
    ensures var p := Page(now, org, limit, cursor);
            RowsAbove(now + seen, org, cursor) == p.0 + RowsAbove(now + seen, org, p.1.value)
  {
    var p := Page(now, org, limit, cursor);
    RisingAppend(now, seen);
    PageSplitsAnswer(now, org, limit, cursor);
    RowsAboveAppend(now, seen, org, cursor);
    RowsAboveAppend(now, seen, org, p.1.value);
    LaterRowsAbove(now, seen, org, limit, cursor);
    Associate(p.0, RowsAbove(now, org, p.1.value), RowsAbove(seen, org, cursor));
  }

  lemma Associate(a: seq<Row>, b: seq<Row>, c: seq<Row>)
    ensures (a + b) + c == a + (b + c)
  {
  }

  lemma RisingMiddle(a: seq<Row>, b: seq<Row>, c: seq<Row>)
    requires Rising(a + (b + c))
    ensures Rising(a + b)
  {
    assert a + (b + c) == (a + b) + c;
    RisingAppend(a + b, c);
  }

  /** Delivered and still-to-come rows together are always the whole answer, whatever is appended
      between the pages: nothing is skipped and nothing comes twice. */
  lemma {:induction false} FollowDeliversEverything(
      rows: seq<Row>, org: string, limit: nat, cursor: nat, batches: seq<seq<Row>>)
    requires limit >= 1
    requires Rising(rows + Flatten(batches))
    ensures var w := Follow(rows, org, limit, cursor, batches);
            RowsAbove(w.rows, org, cursor)
            == w.delivered + (if w.cursor.Some? then RowsAbove(w.rows, org, w.cursor.value) else [])
    decreases |batches|
  {
    if batches != [] {
      var now := rows + batches[0];
      var next := Page(now, org, limit, cursor).1;
      if next.None? {
        RisingMiddle(rows, batches[0], Flatten(batches[1..]));
        PageSplitsAnswer(now, org, limit, cursor);
      } else {
        assert rows + Flatten(batches) == now + Flatten(batches[1..]);
        FollowDeliversEverything(now, org, limit, next.value, batches[1..]);
        var seen, unseen := WalkSees(now, org, limit, next.value, batches[1..]);
        RisingMiddle(now, seen, unseen);
        PageThenLater(now, seen, org, limit, cursor);
      }
    }
  }

  /** A finished walk from cursor 0 has delivered, in rising id order and each once, exactly the
      organisation's rows of the table as the last page saw it. */
  lemma FinishedWalkIsAnswer(rows: seq<Row>, org: string, limit: nat, batches: seq<seq<Row>>)
    requires limit >= 1
    requires Rising(rows + Flatten(batches))
    requires Follow(rows, org, limit, 0, batches).cursor.None?
    ensures var w := Follow(rows, org, limit, 0, batches);
            Rising(w.delivered) && w.delivered == RowsAbove(w.rows, org, 0)
  {
    var w := Follow(rows, org, limit, 0, batches);
    FollowDeliversEverything(rows, org, limit, 0, batches);
    var seen, unseen := WalkSees(rows, org, limit, 0, batches);
    RisingMiddle(rows, seen, unseen);
    assert w.delivered + [] == w.delivered;
    AnswerRises(w.rows, org, 0);
  }

  /** So every row of the organisation that was there at the start has been delivered, and
      nothing has that is not a row of the organisation. */
  lemma FinishedWalkIsComplete(rows: seq<Row>, org: string, limit: nat, batches: seq<seq<Row>>, r: Row)
    requires limit >= 1 && r.id >= 1
    requires Rising(rows + Flatten(batches))
    requires Follow(rows, org, limit, 0, batches).cursor.None?
    ensures var w := Follow(rows, org, limit, 0, batches);
            && (r in w.delivered <==> r in w.rows && r.org == org)
            && (r in rows && r.org == org ==> r in w.delivered)
  {
    FinishedWalkIsAnswer(rows, org, limit, batches);
    var seen, unseen := WalkSees(rows, org, limit, 0, batches);
    AnswerMembers(rows + seen, org, 0, r);
  }

  /** Without appends the walk ends: after one page per `limit` rows, since every page with a
      cursor leaves exactly `limit` rows fewer above it. */
  lemma {:induction false} WalkEnds(rows: seq<Row>, org: string, limit: nat, cursor: nat, pages: nat)
    requires limit >= 1 && Rising(rows)
    requires pages >= 1 && pages * limit >= |RowsAbove(rows, org, cursor)|
    ensures Follow(rows, org, limit, cursor, seq(pages, _ => [])).cursor.None?
    decreases pages
  {
    var none: seq<seq<Row>> := seq(pages, _ => []);
    assert rows + none[0] == rows;
    PageSplitsAnswer(rows, org, limit, cursor);
    var (page, next) := Page(rows, org, limit, cursor);
    if next.Some? {
      assert |RowsAbove(rows, org, next.value)| == |RowsAbove(rows, org, cursor)| - limit;
      assert (pages - 1) * limit == pages * limit - limit;
      assert pages > 1;
      assert none[1..] == seq(pages - 1, _ => []);
      WalkEnds(rows, org, limit, next.value, pages - 1);
    }
  }
}
