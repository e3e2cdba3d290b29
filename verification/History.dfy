/**
 Keyset pagination of a conversation's messages, and the client's walk back through every
 page while new messages keep arriving.
 */
module History {
  import opened Wrappers

  /** A stored message; its content plays no part here. */
  datatype Message = Message(id: nat, conv: nat, sentAt: int) {
    function Key(): Cursor { Cursor(sentAt, id) }
  }

  /** The position a page starts from: the (sent_at, id) of the message after it. */
  datatype Cursor = Cursor(sentAt: int, id: nat)

  predicate Older(a: Cursor, b: Cursor) {
    a.sentAt < b.sentAt || (a.sentAt == b.sentAt && a.id < b.id)
  }

  const MAX_PAGE_SIZE := 200

  // ---- The query -------------------------------------------------------------

  predicate Eligible(m: Message, conv: nat, before: Option<Cursor>) {
    m.conv == conv && (before.Some? ==> Older(m.Key(), before.value))
  }

  /** WHERE: the rows of the conversation strictly older than the cursor. */
  function Where(rows: seq<Message>, conv: nat, before: Option<Cursor>): seq<Message> {
    if rows == [] then []
    else (if Eligible(rows[0], conv, before) then [rows[0]] else []) + Where(rows[1..], conv, before)
  }

  function Insert(m: Message, sorted: seq<Message>): seq<Message> {
    if sorted == [] || Older(sorted[0].Key(), m.Key()) then [m] + sorted
    else [sorted[0]] + Insert(m, sorted[1..])
  }

  /** ORDER BY sent_at DESC, id DESC. */
  function NewestFirst(rows: seq<Message>): seq<Message> {
    if rows == [] then [] else Insert(rows[0], NewestFirst(rows[1..]))
  }

  predicate DistinctKeys(rows: seq<Message>) {
    forall i, j :: 0 <= i < j < |rows| ==> rows[i].Key() != rows[j].Key()
  }

  predicate Ascending(ms: seq<Message>) {
    forall i, j :: 0 <= i < j < |ms| ==> Older(ms[i].Key(), ms[j].Key())
  }

  predicate Descending(ms: seq<Message>) {
    forall i, j :: 0 <= i < j < |ms| ==> Older(ms[j].Key(), ms[i].Key())
  }

  function Elements(ms: seq<Message>): set<Message> {
    set m | m in ms
  }

  function EligibleSet(rows: seq<Message>, conv: nat, before: Option<Cursor>): set<Message> {
    set m | m in rows && Eligible(m, conv, before)
  }

  lemma {:induction false} WhereIs(rows: seq<Message>, conv: nat, before: Option<Cursor>)
    ensures forall m :: m in Where(rows, conv, before) <==> m in rows && Eligible(m, conv, before)
    ensures DistinctKeys(rows) ==> DistinctKeys(Where(rows, conv, before))
  {
    if rows != [] {
      WhereIs(rows[1..], conv, before);
      assert rows == [rows[0]] + rows[1..];
      assert DistinctKeys(rows) ==> forall m <- rows[1..] :: m.Key() != rows[0].Key();
    }
  }

  lemma DescendingCons(head: Message, rest: seq<Message>)
    requires Descending(rest) && forall x <- rest :: Older(x.Key(), head.Key())
    ensures Descending([head] + rest)
  {
  }

  lemma {:induction false} InsertKeepsOrder(m: Message, sorted: seq<Message>)
    requires Descending(sorted) && forall x <- sorted :: x.Key() != m.Key()
    ensures Descending(Insert(m, sorted))
    ensures forall x :: x in Insert(m, sorted) <==> x == m || x in sorted
  {
    if sorted == [] {
    } else if Older(sorted[0].Key(), m.Key()) {
      forall x | x in sorted ensures Older(x.Key(), m.Key()) {
        var i :| 0 <= i < |sorted| && sorted[i] == x;
      }
      DescendingCons(m, sorted);
    } else {
      var head, tail := sorted[0], sorted[1..];
      assert sorted == [head] + tail;
      assert forall x <- tail :: x in sorted;
      InsertKeepsOrder(m, tail);
      forall x | x in Insert(m, tail) ensures Older(x.Key(), head.Key()) {
        if x != m {
          var i :| 0 <= i < |tail| && tail[i] == x;
          assert sorted[i + 1] == x;
        }
      }
      DescendingCons(head, Insert(m, tail));
    }
  }

  lemma {:induction false} NewestFirstSorts(rows: seq<Message>)
    requires DistinctKeys(rows)
    ensures Descending(NewestFirst(rows))
    ensures forall m :: m in NewestFirst(rows) <==> m in rows
  {
    if rows != [] {
      NewestFirstSorts(rows[1..]);
      assert forall m <- rows[1..] :: m.Key() != rows[0].Key();
      InsertKeepsOrder(rows[0], NewestFirst(rows[1..]));
      assert rows == [rows[0]] + rows[1..];
    }
  }

  /** The rows one request reads: at most one more than fits the page, newest first. */
  function Fetched(rows: seq<Message>, conv: nat, before: Option<Cursor>, size: nat): seq<Message> {
    var sorted := NewestFirst(Where(rows, conv, before));
    if |sorted| <= size + 1 then sorted else sorted[..size + 1]
  }

  function PageSize(limit: int): (size: nat)
    ensures 1 <= size <= MAX_PAGE_SIZE
  {
    var atLeastOne := if limit < 1 then 1 else limit;
    if atLeastOne > MAX_PAGE_SIZE then MAX_PAGE_SIZE else atLeastOne
  }

  /** The cursor returned: the oldest message of a page that has older ones behind it. */
  function NextCursor(rows: seq<Message>, conv: nat, before: Option<Cursor>, limit: int): Option<Cursor> {
    var size := PageSize(limit);
    var fetched := Fetched(rows, conv, before, size);
    if |fetched| > size then Some(fetched[size - 1].Key()) else None
  }

  /**
   What a page must be, independently of how it is computed: the newest eligible messages,
   oldest first, everything left out being older than all of it, and full if anything is.
   */
  ghost predicate IsPage(page: seq<Message>, rows: seq<Message>, conv: nat, before: Option<Cursor>, limit: int) {
    && Ascending(page) && |page| <= PageSize(limit)
    && Elements(page) <= EligibleSet(rows, conv, before)
    && (forall m <- EligibleSet(rows, conv, before) - Elements(page) ::
          |page| == PageSize(limit) && Older(m.Key(), page[0].Key()))
  }

  lemma {:induction false} DistinctCount(ms: seq<Message>)
    requires Ascending(ms)
    ensures |Elements(ms)| == |ms|
  {
    if ms != [] {
      var init, last := ms[..|ms| - 1], ms[|ms| - 1];
      DistinctCount(init);
      assert last !in init;
      assert ms == init + [last];
      assert Elements(ms) == Elements(init) + {last};
    }
  }

  /** A page is as long as what it may show allows: everything eligible, or a full page. */
  lemma PageLength(rows: seq<Message>, conv: nat, before: Option<Cursor>, limit: int, page: seq<Message>)
    requires IsPage(page, rows, conv, before, limit)
    ensures var eligible := |EligibleSet(rows, conv, before)|;
            |page| == if eligible < PageSize(limit) then eligible else PageSize(limit)
  {
    var eligible := EligibleSet(rows, conv, before);
    DistinctCount(page);
    var left := eligible - Elements(page);
    assert eligible == Elements(page) + left;
    if m :| m in left {
      assert |left| > 0;
    } else {
      assert left == {};
    }
  }

  /**
   A page in plain terms: rows of this conversation from before the cursor, in ascending (sent_at,
   id) order, everything left out being older; and as many as there are, but at most the limit,
   which is taken as 1 below and as 200 above its range.
   */
  lemma PageInPlainTerms(rows: seq<Message>, conv: nat, before: Option<Cursor>, limit: int, page: seq<Message>)
    requires IsPage(page, rows, conv, before, limit)
    ensures var eligible := |EligibleSet(rows, conv, before)|;
            var bound := if limit < 1 then 1 else if limit > 200 then 200 else limit;
            |page| == if eligible < bound then eligible else bound
    ensures forall m <- page :: m in rows && m.conv == conv
    ensures before.Some? ==> forall m <- page ::
              m.sentAt < before.value.sentAt || (m.sentAt == before.value.sentAt && m.id < before.value.id)
    ensures forall i, j :: 0 <= i < j < |page| ==>
              page[i].sentAt < page[j].sentAt || (page[i].sentAt == page[j].sentAt && page[i].id < page[j].id)
    ensures forall m <- rows ::
              && m.conv == conv && m !in page
              && (before.Some? ==> m.sentAt < before.value.sentAt || (m.sentAt == before.value.sentAt
                                                                      && m.id < before.value.id))
              ==> |page| == (if limit < 1 then 1 else if limit > 200 then 200 else limit)
                  && (m.sentAt < page[0].sentAt || (m.sentAt == page[0].sentAt && m.id < page[0].id))
  {
    PageLength(rows, conv, before, limit, page);
    assert forall m <- page :: m in Elements(page);
    forall m | m in rows && Eligible(m, conv, before) && m !in page
        ensures m in EligibleSet(rows, conv, before) - Elements(page) {
    }
  }

  class MessageTable {
    var rows: seq<Message>

    constructor (rows: seq<Message>)
      ensures this.rows == rows
    {
      this.rows := rows;
    }

    method ListForConversation(conv: nat, before: Option<Cursor>, limit: int)
      returns (page: seq<Message>, nextCursor: Option<Cursor>)
      requires DistinctKeys(rows)
      ensures IsPage(page, rows, conv, before, limit)
      ensures nextCursor == NextCursor(rows, conv, before, limit)
      ensures nextCursor.Some? <==> EligibleSet(rows, conv, before) > Elements(page)
      ensures nextCursor.Some? ==> page != [] && nextCursor.value == page[0].Key()
    {
      var size := PageSize(limit);
      var fetched := Fetched(rows, conv, before, size);
      var hasMore := |fetched| > size;
      var newest := if hasMore then fetched[..size] else fetched;
      page := ReverseList(newest);
      nextCursor := None;
      if hasMore && page != [] {
        nextCursor := Some(page[0].Key());
      }
      ReversedNewestIsPage(rows, conv, before, limit, newest, page);
    }

    method InsertAll(arrivals: seq<Message>)
      modifies this
      ensures rows == old(rows) + arrivals
    {
      rows := rows + arrivals;
    }
  }

  /** Reverses a list in place. */
  method ReverseList(list: seq<Message>) returns (reversed: seq<Message>)
    ensures |reversed| == |list|
    ensures forall i :: 0 <= i < |list| ==> reversed[i] == list[|list| - 1 - i]
  {
    var a := new Message[|list|](i requires 0 <= i < |list| => list[i]);
    var i, j := 0, |list| - 1;
    while i < j
      invariant 0 <= i && i + j == |list| - 1 && i <= j + 1
      invariant forall k :: 0 <= k < i ==> a[k] == list[|list| - 1 - k] && a[|list| - 1 - k] == list[k]
      invariant forall k :: i <= k <= j ==> a[k] == list[k]
    {
      a[i], a[j] := a[j], a[i];
      i, j := i + 1, j - 1;
    }
    reversed := a[..];
    forall k | 0 <= k < |list| ensures reversed[k] == list[|list| - 1 - k] {
      if k >= i && k > j {
        assert a[|list| - 1 - (|list| - 1 - k)] == list[|list| - 1 - k];
      }
    }
  }

  /** The fetched rows, cut to the page size, are the newest eligible ones. */
  lemma PageIsNewest(rows: seq<Message>, conv: nat, before: Option<Cursor>, size: nat)
    requires DistinctKeys(rows) && size > 0
    ensures var fetched := Fetched(rows, conv, before, size);
            var newest := if |fetched| > size then fetched[..size] else fetched;
            && Descending(newest) && |newest| <= size
            && (forall m <- newest :: m in rows && Eligible(m, conv, before))
            && (forall m <- rows :: Eligible(m, conv, before) && m !in newest ==>
                  |newest| == size && Older(m.Key(), newest[size - 1].Key()))
            && (|fetched| > size <==> exists m <- rows :: Eligible(m, conv, before) && m !in newest)
  {
    WhereIs(rows, conv, before);
    NewestFirstSorts(Where(rows, conv, before));
    var sorted := NewestFirst(Where(rows, conv, before));
    var fetched := Fetched(rows, conv, before, size);
    var newest := if |fetched| > size then fetched[..size] else fetched;
    assert newest == if |sorted| > size then sorted[..size] else sorted;
    forall m | m in rows && Eligible(m, conv, before) && m !in newest
      ensures |newest| == size && Older(m.Key(), newest[size - 1].Key())
    {
      assert m in sorted;
      var i :| 0 <= i < |sorted| && sorted[i] == m;
      assert i >= size;
    }
    if |fetched| > size {
      var m := sorted[size];
      assert m in sorted && forall i :: 0 <= i < size ==> sorted[i] != m;
    }
  }

  lemma ReversedHasSame(list: seq<Message>, reversed: seq<Message>)
    requires |reversed| == |list| && forall i :: 0 <= i < |list| ==> reversed[i] == list[|list| - 1 - i]
    ensures forall m :: m in reversed <==> m in list
    ensures Descending(list) ==> Ascending(reversed)
  {
    forall m | m in list ensures m in reversed {
      var i :| 0 <= i < |list| && list[i] == m;
      assert reversed[|list| - 1 - i] == m;
    }
  }

  lemma ReversedNewestIsPage(rows: seq<Message>, conv: nat, before: Option<Cursor>, limit: int, newest: seq<Message>,
                             page: seq<Message>)
    requires DistinctKeys(rows)
    requires var fetched := Fetched(rows, conv, before, PageSize(limit));
             newest == if |fetched| > PageSize(limit) then fetched[..PageSize(limit)] else fetched
    requires |page| == |newest| && forall i :: 0 <= i < |newest| ==> page[i] == newest[|newest| - 1 - i]
    ensures IsPage(page, rows, conv, before, limit)
    ensures NextCursor(rows, conv, before, limit).Some? <==> EligibleSet(rows, conv, before) > Elements(page)
  {
    PageIsNewest(rows, conv, before, PageSize(limit));
    ReversedHasSame(newest, page);
    var left := EligibleSet(rows, conv, before) - Elements(page);
    assert forall m :: m in left <==> m in rows && Eligible(m, conv, before) && m !in newest;
    assert Elements(page) <= EligibleSet(rows, conv, before);
    if m :| m in left {
      assert EligibleSet(rows, conv, before) > Elements(page);
    }
  }

  // ---- Walking back through the whole history ------------------------------------

  function Flatten(batches: seq<seq<Message>>): seq<Message> {
    if batches == [] then [] else batches[0] + Flatten(batches[1..])
  }

  /** The pages of a walk, put back oldest page first. */
  function Joined(pages: seq<seq<Message>>): seq<Message> {
    if pages == [] then [] else pages[|pages| - 1] + Joined(pages[..|pages| - 1])
  }

  /**
   The messages that slip in behind the walk: `arrivals[k]` comes in right after the k-th
   page was read, and a message counts as late if it sorts before the cursor of that page.
   */
  ghost function Late(rows: seq<Message>, conv: nat, cursor: Option<Cursor>, limit: int,
                      arrivals: seq<seq<Message>>): set<Message>
    decreases |arrivals|
  {
    var next := NextCursor(rows, conv, cursor, limit);
    if next.None? || arrivals == [] then {}
    else EligibleSet(arrivals[0], conv, next) + Late(rows + arrivals[0], conv, next, limit, arrivals[1..])
  }

  /** A page and what its cursor leaves behind are exactly what the request could see. */
  lemma PageSplits(page: seq<Message>, rows: seq<Message>, conv: nat, before: Option<Cursor>, limit: int,
                   next: Option<Cursor>)
    requires IsPage(page, rows, conv, before, limit)
    requires next.Some? <==> EligibleSet(rows, conv, before) > Elements(page)
    requires next.Some? ==> page != [] && next.value == page[0].Key()
    ensures next.None? ==> Elements(page) == EligibleSet(rows, conv, before)
    ensures next.Some? ==>
              && Elements(page) !! EligibleSet(rows, conv, next) && page[0] in Elements(page)
              && Elements(page) + EligibleSet(rows, conv, next) == EligibleSet(rows, conv, before)
              && forall m <- page :: !Older(m.Key(), next.value)
  {
  }

  lemma EligibleOfBoth(a: seq<Message>, b: seq<Message>, conv: nat, before: Option<Cursor>)
    ensures EligibleSet(a + b, conv, before) == EligibleSet(a, conv, before) + EligibleSet(b, conv, before)
  {
  }

  /** Where a walk stands: what it has put together and what it can still see. */
  ghost predicate WalkInv(rows: seq<Message>, conv: nat, cursor: Option<Cursor>, more: bool, seen: seq<Message>,
                          first: set<Message>, late: set<Message>)
  {
    && (more && cursor.None? ==> seen == [])
    && Ascending(seen)
    && (more && cursor.Some? ==> forall m <- seen :: !Older(m.Key(), cursor.value))
    && Elements(seen) + Ahead(rows, conv, cursor, more) == first + late
  }

  ghost function Ahead(rows: seq<Message>, conv: nat, cursor: Option<Cursor>, more: bool): set<Message> {
    if more then EligibleSet(rows, conv, cursor) else {}
  }

  lemma DistinctPrefix(rows: seq<Message>, more: seq<Message>)
    requires DistinctKeys(rows + more)
    ensures DistinctKeys(rows)
  {
    assert forall i :: 0 <= i < |rows| ==> rows[i] == (rows + more)[i];
  }

  /** Each page leaves less ahead of the walk. */
  lemma PageShrinks(rows: seq<Message>, conv: nat, limit: int, cursor: Option<Cursor>, next: Option<Cursor>,
                    page: seq<Message>)
    requires IsPage(page, rows, conv, cursor, limit) && next.Some?
    requires EligibleSet(rows, conv, cursor) > Elements(page) && page != [] && next.value == page[0].Key()
    ensures |EligibleSet(rows, conv, next)| < |EligibleSet(rows, conv, cursor)|
  {
    PageSplits(page, rows, conv, cursor, limit, next);
    SmallerSet(EligibleSet(rows, conv, next), EligibleSet(rows, conv, cursor));
  }

  /** Reading one page moves its messages from what is ahead to what is put together. */
  lemma PageStep(rows: seq<Message>, conv: nat, limit: int, cursor: Option<Cursor>, next: Option<Cursor>,
                 page: seq<Message>, seen: seq<Message>, first: set<Message>, late: set<Message>)
    requires WalkInv(rows, conv, cursor, true, seen, first, late)
    requires IsPage(page, rows, conv, cursor, limit)
    requires next.Some? <==> EligibleSet(rows, conv, cursor) > Elements(page)
    requires next.Some? ==> page != [] && next.value == page[0].Key()
    ensures WalkInv(rows, conv, next, next.Some?, page + seen, first, late)
  {
  }

  /** A page with more behind it is full, and what is behind it is not nothing. */
  lemma FullPage(rows: seq<Message>, conv: nat, limit: int, cursor: Option<Cursor>, next: Option<Cursor>,
                 page: seq<Message>)
    requires IsPage(page, rows, conv, cursor, limit) && next.Some?
    requires EligibleSet(rows, conv, cursor) > Elements(page) && page != [] && next.value == page[0].Key()
    ensures |page| == PageSize(limit) && EligibleSet(rows, conv, next) != {}
  {
    PageSplits(page, rows, conv, cursor, limit, next);
    var m :| m in EligibleSet(rows, conv, cursor) - Elements(page);
    assert m in EligibleSet(rows, conv, next);
  }

  /** A page is empty only if there is nothing to see. */
  lemma EmptyPage(rows: seq<Message>, conv: nat, limit: int, cursor: Option<Cursor>, page: seq<Message>)
    requires IsPage(page, rows, conv, cursor, limit) && page == []
    ensures EligibleSet(rows, conv, cursor) == {}
  {
    assert EligibleSet(rows, conv, cursor) - Elements(page) == EligibleSet(rows, conv, cursor);
  }

  /** What `fetches` full pages hold. */
  function Full(fetches: nat, size: nat): nat {
    if fetches == 0 then 0 else Full(fetches - 1, size) + size
  }

  lemma {:induction false} FullIsProduct(fetches: nat, size: nat)
    ensures Full(fetches, size) == fetches * size
  {
    if fetches > 0 {
      FullIsProduct(fetches - 1, size);
    }
  }

  /** `fetches` pages of `size` are exactly as many as `count` messages need; one for none. */
  predicate PagesFor(count: nat, size: nat, fetches: nat) {
    && fetches >= 1 && count <= Full(fetches, size)
    && (fetches > 1 ==> Full(fetches - 1, size) < count)
  }

  /** All pages full, the last one perhaps not once nothing is left; and none empty but a lone one. */
  predicate WellFilled(pages: seq<seq<Message>>, size: nat, more: bool) {
    forall k :: 0 <= k < |pages| ==>
      && |pages[k]| <= size && (more || k < |pages| - 1 ==> |pages[k]| == size) && (k > 0 ==> pages[k] != [])
  }

  lemma FillOneMore(pages: seq<seq<Message>>, page: seq<Message>, size: nat, more: bool)
    requires WellFilled(pages, size, true) && |page| <= size && (more ==> |page| == size)
             && (pages != [] ==> page != [])
    ensures WellFilled(pages + [page], size, more)
  {
  }

  lemma {:induction false} FullPagesCount(pages: seq<seq<Message>>, size: nat)
    requires WellFilled(pages, size, true)
    ensures |Joined(pages)| == Full(|pages|, size)
  {
    if pages != [] {
      FullPagesCount(pages[..|pages| - 1], size);
    }
  }

  lemma FilledPagesCount(pages: seq<seq<Message>>, size: nat)
    requires WellFilled(pages, size, false) && pages != []
    ensures PagesFor(|Joined(pages)|, size, |pages|)
  {
    FullPagesCount(pages[..|pages| - 1], size);
  }

  /** The batch that comes in after a page, and the ones still to come. */
  function NextBatch(rest: seq<seq<Message>>): seq<Message> {
    if rest == [] then [] else rest[0]
  }

  function LaterBatches(rest: seq<seq<Message>>): seq<seq<Message>> {
    if rest == [] then [] else rest[1..]
  }

  ghost function LateNow(conv: nat, next: Option<Cursor>, rest: seq<seq<Message>>): set<Message> {
    if next.Some? then EligibleSet(NextBatch(rest), conv, next) else {}
  }

  ghost function LateAhead(rows: seq<Message>, conv: nat, cursor: Option<Cursor>, limit: int, more: bool,
                           rest: seq<seq<Message>>): set<Message> {
    if more then Late(rows, conv, cursor, limit, rest) else {}
  }

  lemma NoBatch(rows: seq<Message>, rest: seq<seq<Message>>)
    ensures rest == [] ==> rows + NextBatch(rest) == rows
  {
  }

  lemma RowsStep(rows: seq<Message>, rest: seq<seq<Message>>)
    ensures rows + Flatten(rest) == rows + NextBatch(rest) + Flatten(LaterBatches(rest))
  {
  }

  /** The late messages met so far and those ahead are all the late ones. */
  ghost predicate LateSum(rows: seq<Message>, conv: nat, limit: int, cursor: Option<Cursor>, more: bool,
                          rest: seq<seq<Message>>, late: set<Message>, everyLate: set<Message>)
  {
    everyLate == late + LateAhead(rows, conv, cursor, limit, more, rest)
  }

  lemma LateSumStep(rows: seq<Message>, conv: nat, limit: int, cursor: Option<Cursor>, rest: seq<seq<Message>>,
                    late: set<Message>, everyLate: set<Message>)
    requires LateSum(rows, conv, limit, cursor, true, rest, late, everyLate)
    ensures var next := NextCursor(rows, conv, cursor, limit);
            LateSum(rows + NextBatch(rest), conv, limit, next, next.Some?, LaterBatches(rest),
                    late + LateNow(conv, next, rest), everyLate)
  {
  }

  lemma WalkStep(rows: seq<Message>, conv: nat, next: Option<Cursor>, rest: seq<seq<Message>>, seen: seq<Message>,
                 first: set<Message>, late: set<Message>)
    requires WalkInv(rows, conv, next, next.Some?, seen, first, late)
    ensures WalkInv(rows + NextBatch(rest), conv, next, next.Some?, seen, first, late + LateNow(conv, next, rest))
  {
  }

  /**
   A walk's bookkeeping: all that ever is in the table, what the walk has put together, what there
   was at first, the late messages met and all of them.
   */
  datatype Walk = Walk(all: seq<Message>, seen: seq<Message>, first: set<Message>, late: set<Message>,
                       everyLate: set<Message>)

  /** Everything the walk's loop maintains. */
  ghost predicate Standing(rows: seq<Message>, conv: nat, limit: int, cursor: Option<Cursor>, more: bool,
                           rest: seq<seq<Message>>, w: Walk)
  {
    && rows + Flatten(rest) == w.all && DistinctKeys(w.all)
    && LateSum(rows, conv, limit, cursor, more, rest, w.late, w.everyLate)
    && WalkInv(rows, conv, cursor, more, w.seen, w.first, w.late)
    && (more && cursor.Some? ==> |EligibleSet(rows, conv, cursor)| > 0)
  }

  /** How many messages a walk has ahead of it, once no more arrive. */
  ghost function Left(rows: seq<Message>, conv: nat, cursor: Option<Cursor>, more: bool): nat {
    if more then |EligibleSet(rows, conv, cursor)| + 1 else 0
  }

  ghost function Beginning(rows: seq<Message>, conv: nat, limit: int, arrivals: seq<seq<Message>>): Walk {
    Walk(rows + Flatten(arrivals), [], EligibleSet(rows, conv, None), {}, Late(rows, conv, None, limit, arrivals))
  }

  ghost function Onward(w: Walk, conv: nat, next: Option<Cursor>, rest: seq<seq<Message>>, page: seq<Message>): Walk {
    Walk(w.all, page + w.seen, w.first, w.late + LateNow(conv, next, rest), w.everyLate)
  }

  lemma WalkStarts(rows: seq<Message>, conv: nat, limit: int, arrivals: seq<seq<Message>>)
    requires DistinctKeys(rows + Flatten(arrivals))
    ensures Standing(rows, conv, limit, None, true, arrivals, Beginning(rows, conv, limit, arrivals))
  {
  }

  lemma WalkEnds(rows: seq<Message>, conv: nat, limit: int, cursor: Option<Cursor>, rest: seq<seq<Message>>, w: Walk)
    requires Standing(rows, conv, limit, cursor, false, rest, w)
    ensures Ascending(w.seen) && Elements(w.seen) == w.first + w.everyLate
  {
  }

  /** One turn of the loop: a page read, then a batch of arrivals. */
  lemma OneFetch(rows: seq<Message>, conv: nat, limit: int, cursor: Option<Cursor>, next: Option<Cursor>,
                 rest: seq<seq<Message>>, page: seq<Message>, w: Walk)
    requires Standing(rows, conv, limit, cursor, true, rest, w)
    requires IsPage(page, rows, conv, cursor, limit) && next == NextCursor(rows, conv, cursor, limit)
    requires next.Some? <==> EligibleSet(rows, conv, cursor) > Elements(page)
    requires next.Some? ==> page != [] && next.value == page[0].Key()
    ensures Standing(rows + NextBatch(rest), conv, limit, next, next.Some?, LaterBatches(rest),
                     Onward(w, conv, next, rest, page))
  {
    PageStep(rows, conv, limit, cursor, next, page, w.seen, w.first, w.late);
    WalkStep(rows, conv, next, rest, page + w.seen, w.first, w.late);
    LateSumStep(rows, conv, limit, cursor, rest, w.late, w.everyLate);
    RowsStep(rows, rest);
    if next.Some? {
      MoreAhead(rows, NextBatch(rest), conv, limit, cursor, next, page);
    }
  }

  lemma MoreAhead(rows: seq<Message>, batch: seq<Message>, conv: nat, limit: int, cursor: Option<Cursor>,
                  next: Option<Cursor>, page: seq<Message>)
    requires IsPage(page, rows, conv, cursor, limit) && next.Some?
    requires EligibleSet(rows, conv, cursor) > Elements(page) && page != [] && next.value == page[0].Key()
    ensures |EligibleSet(rows + batch, conv, next)| > 0
  {
    FullPage(rows, conv, limit, cursor, next, page);
    EligibleOfBoth(rows, batch, conv, next);
    var m :| m in EligibleSet(rows, conv, next);
    assert m in EligibleSet(rows + batch, conv, next);
  }

  /** How full a page is. */
  lemma PageFills(rows: seq<Message>, conv: nat, limit: int, cursor: Option<Cursor>, next: Option<Cursor>,
                  page: seq<Message>)
    requires IsPage(page, rows, conv, cursor, limit)
    requires next.Some? ==> EligibleSet(rows, conv, cursor) > Elements(page)
    requires next.Some? ==> page != [] && next.value == page[0].Key()
    ensures |page| <= PageSize(limit) && (next.Some? ==> |page| == PageSize(limit))
    ensures |EligibleSet(rows, conv, cursor)| > 0 ==> page != []
  {
    if next.Some? {
      FullPage(rows, conv, limit, cursor, next, page);
    }
    if page == [] {
      EmptyPage(rows, conv, limit, cursor, page);
    }
  }

  /** Each turn uses up a batch, or leaves less ahead. */
  lemma FetchProgresses(rows: seq<Message>, conv: nat, limit: int, cursor: Option<Cursor>, next: Option<Cursor>,
                        rest: seq<seq<Message>>, page: seq<Message>)
    requires IsPage(page, rows, conv, cursor, limit)
    requires next.Some? <==> EligibleSet(rows, conv, cursor) > Elements(page)
    requires next.Some? ==> page != [] && next.value == page[0].Key()
    ensures |LaterBatches(rest)| < |rest| ||
            (rest == [] && Left(rows + NextBatch(rest), conv, next, next.Some?) < Left(rows, conv, cursor, true))
  {
    NoBatch(rows, rest);
    if next.Some? {
      PageShrinks(rows, conv, limit, cursor, next, page);
    }
  }

  /** One request of the walk, and the batch that comes in right after it. */
  method FetchPage(table: MessageTable, conv: nat, limit: int, cursor: Option<Cursor>, rest: seq<seq<Message>>,
                   ghost w: Walk)
    returns (page: seq<Message>, next: Option<Cursor>, ghost w': Walk, ghost left': nat)
    requires Standing(table.rows, conv, limit, cursor, true, rest, w)
    modifies table
    ensures Standing(table.rows, conv, limit, next, next.Some?, LaterBatches(rest), w')
    ensures w' == w.(seen := page + w.seen, late := w'.late)
    ensures |page| <= PageSize(limit) && (next.Some? ==> |page| == PageSize(limit)) && (cursor.Some? ==> page != [])
    ensures left' == Left(table.rows, conv, next, next.Some?)
    ensures |LaterBatches(rest)| < |rest| || (rest == [] && left' < Left(old(table.rows), conv, cursor, true))
  {
    DistinctPrefix(table.rows, Flatten(rest));
    page, next := table.ListForConversation(conv, cursor, limit);
    OneFetch(table.rows, conv, limit, cursor, next, rest, page, w);
    FetchProgresses(table.rows, conv, limit, cursor, next, rest, page);
    PageFills(table.rows, conv, limit, cursor, next, page);
    w' := Onward(w, conv, next, rest, page);
    table.InsertAll(NextBatch(rest));
    left' := Left(table.rows, conv, next, next.Some?);
  }

  /** The loop of the walk: the pages from the newest, `arrivals[k]` being inserted right after the k-th was read. */
  method FetchPages(table: MessageTable, conv: nat, limit: int, arrivals: seq<seq<Message>>)
    returns (pages: seq<seq<Message>>)
    requires DistinctKeys(table.rows + Flatten(arrivals))
    modifies table
    ensures pages != [] && WellFilled(pages, PageSize(limit), false) && Ascending(Joined(pages))
    ensures Elements(Joined(pages)) ==
            EligibleSet(old(table.rows), conv, None) + Late(old(table.rows), conv, None, limit, arrivals)
  {
    ghost var start := Beginning(table.rows, conv, limit, arrivals);
    WalkStarts(table.rows, conv, limit, arrivals);
    pages := [];
    var cursor: Option<Cursor> := None;
    var more, rest := true, arrivals;
    ghost var w, left := start, Left(table.rows, conv, cursor, more);
    while more
      invariant Standing(table.rows, conv, limit, cursor, more, rest, w)
      invariant w.seen == Joined(pages) && w.first == start.first && w.everyLate == start.everyLate
      invariant WellFilled(pages, PageSize(limit), more) && (pages == [] ==> more)
                && (more && pages != [] ==> cursor.Some?)
      invariant left == Left(table.rows, conv, cursor, more)
      decreases |rest|, left
    {
      var page;
      page, cursor, w, left := FetchPage(table, conv, limit, cursor, rest, w);
      JoinedWith(pages, page);
      FillOneMore(pages, page, PageSize(limit), cursor.Some?);
      pages := pages + [page];
      rest := LaterBatches(rest);
      more := cursor.Some?;
    }
    WalkEnds(table.rows, conv, limit, cursor, rest, w);
  }

  /**
   Fetches a conversation's entire history while others keep inserting. It makes exactly as many
   fetches as the returned messages fill pages, however much arrives.
   */
  method FetchAllMessages(table: MessageTable, conv: nat, limit: int, arrivals: seq<seq<Message>>)
    returns (all: seq<Message>, ghost fetches: nat)
    requires DistinctKeys(table.rows + Flatten(arrivals))
    modifies table
    ensures Ascending(all)
    ensures Elements(all) ==
            EligibleSet(old(table.rows), conv, None) + Late(old(table.rows), conv, None, limit, arrivals)
    ensures PagesFor(|all|, PageSize(limit), fetches)
    ensures limit == 200 && all != [] ==> (fetches - 1) * 200 < |all| <= fetches * 200
  {
    var pages := FetchPages(table, conv, limit, arrivals);
    fetches := |pages|;
    all := FlattenReversed(pages);
    FilledPagesCount(pages, PageSize(limit));
    FullIsProduct(fetches, PageSize(limit));
    FullIsProduct(fetches - 1, PageSize(limit));
  }

  lemma JoinedWith(pages: seq<seq<Message>>, page: seq<Message>)
    ensures Joined(pages + [page]) == page + Joined(pages)
  {
  }

  method FlattenReversed(pages: seq<seq<Message>>) returns (all: seq<Message>)
    ensures all == Joined(pages)
  {
    all := [];
    var i := |pages|;
    assert pages[..i] == pages;
    while i > 0
      invariant 0 <= i <= |pages|
      invariant all + Joined(pages[..i]) == Joined(pages)
    {
      assert pages[..i][..i - 1] == pages[..i - 1];
      i := i - 1;
      all := all + pages[i];
    }
  }

  lemma SmallerSet(a: set<Message>, b: set<Message>)
    requires a < b
    ensures |a| < |b|
  {
    assert b == a + (b - a);
    assert |b - a| > 0;
  }

  // ---- What the walk returns ------------------------------------------------------

  /** The conversation's messages, ascending in (sent_at, id). */
  function OldestFirst(rows: seq<Message>, conv: nat): seq<Message> {
    var sorted := NewestFirst(Where(rows, conv, None));
    seq(|sorted|, i requires 0 <= i < |sorted| => sorted[|sorted| - 1 - i])
  }

  lemma OldestFirstIs(rows: seq<Message>, conv: nat)
    requires DistinctKeys(rows)
    ensures Ascending(OldestFirst(rows, conv)) && Elements(OldestFirst(rows, conv)) == EligibleSet(rows, conv, None)
  {
    WhereIs(rows, conv, None);
    NewestFirstSorts(Where(rows, conv, None));
    ReversedHasSame(NewestFirst(Where(rows, conv, None)), OldestFirst(rows, conv));
  }

  lemma NoElements(a: seq<Message>)
    ensures Elements(a) == {} <==> a == []
  {
    if a != [] {
      assert a[0] in Elements(a);
    }
  }

  lemma TailElements(a: seq<Message>)
    requires Ascending(a) && a != []
    ensures Elements(a[1..]) == Elements(a) - {a[0]}
  {
  }

  lemma DistinctHalves(a: seq<Message>, b: seq<Message>, m: Message)
    requires DistinctKeys(a + b) && m in a
    ensures m !in b
  {
    var i :| 0 <= i < |a| && a[i] == m;
    forall j | 0 <= j < |b| ensures b[j] != m {
      assert (a + b)[i].Key() != (a + b)[|a| + j].Key();
    }
  }

  /** There is only one ascending list of a given set of messages. */
  lemma {:induction false} AscendingUnique(a: seq<Message>, b: seq<Message>)
    requires Ascending(a) && Ascending(b) && Elements(a) == Elements(b)
    ensures a == b
  {
    if a == [] {
      NoElements(a);
      NoElements(b);
    } else {
      assert a[0] in Elements(b);
      assert b != [] && b[0] in Elements(a);
      assert a[0] == b[0] by {
        var i :| 0 <= i < |b| && b[i] == a[0];
        var j :| 0 <= j < |a| && a[j] == b[0];
      }
      TailElements(a);
      TailElements(b);
      AscendingUnique(a[1..], b[1..]);
      assert a == [a[0]] + a[1..] && b == [b[0]] + b[1..];
    }
  }

  /**
   The walk returns exactly the conversation as it stood at the first fetch, in ascending
   order and each message once, if and only if nothing slips in behind it.
   */
  lemma WalkIsSnapshotIff(rows: seq<Message>, conv: nat, limit: int, arrivals: seq<seq<Message>>, all: seq<Message>)
    requires DistinctKeys(rows + Flatten(arrivals))
    requires Ascending(all)
    requires Elements(all) == EligibleSet(rows, conv, None) + Late(rows, conv, None, limit, arrivals)
    ensures all == OldestFirst(rows, conv) <==> Late(rows, conv, None, limit, arrivals) == {}
  {
    DistinctPrefix(rows, Flatten(arrivals));
    OldestFirstIs(rows, conv);
    LateOnesArrived(rows, conv, None, limit, arrivals);
    assert EligibleSet(rows, conv, None) !! Late(rows, conv, None, limit, arrivals) by {
      forall m | m in rows ensures m !in Flatten(arrivals) {
        DistinctHalves(rows, Flatten(arrivals), m);
      }
    }
    if Late(rows, conv, None, limit, arrivals) == {} {
      AscendingUnique(all, OldestFirst(rows, conv));
    }
  }

  lemma {:induction false} LateOnesArrived(
    rows: seq<Message>, conv: nat, cursor: Option<Cursor>, limit: int, arrivals: seq<seq<Message>>)
    ensures forall m <- Late(rows, conv, cursor, limit, arrivals) :: m in Flatten(arrivals)
    decreases |arrivals|
  {
    var next := NextCursor(rows, conv, cursor, limit);
    if next.Some? && arrivals != [] {
      LateOnesArrived(rows + arrivals[0], conv, next, limit, arrivals[1..]);
    }
  }

  /** A next cursor is the position of a message the request could see. */
  lemma NextCursorIsSeen(rows: seq<Message>, conv: nat, cursor: Option<Cursor>, limit: int)
    requires NextCursor(rows, conv, cursor, limit).Some? && DistinctKeys(rows)
    ensures exists m <- EligibleSet(rows, conv, cursor) :: m.Key() == NextCursor(rows, conv, cursor, limit).value
  {
    WhereIs(rows, conv, cursor);
    NewestFirstSorts(Where(rows, conv, cursor));
    var m := NewestFirst(Where(rows, conv, cursor))[PageSize(limit) - 1];
    assert m in NewestFirst(Where(rows, conv, cursor));
    assert m in EligibleSet(rows, conv, cursor);
  }

  /**
   Newer messages never disturb the walk: if everything that arrives in the conversation
   sorts after all it held at the first fetch, nothing is late.
   */
  lemma {:induction false} NewerArrivalsAreNeverLate(
    first: set<Message>, rows: seq<Message>, conv: nat, cursor: Option<Cursor>, limit: int, arrivals: seq<seq<Message>>)
    requires DistinctKeys(rows + Flatten(arrivals))
    requires EligibleSet(rows, conv, cursor) <= first
    requires forall m <- Flatten(arrivals), x <- first :: m.conv == conv ==> Older(x.Key(), m.Key())
    ensures Late(rows, conv, cursor, limit, arrivals) == {}
    decreases |arrivals|
  {
    var next := NextCursor(rows, conv, cursor, limit);
    if next.Some? && arrivals != [] {
      DistinctPrefix(rows, Flatten(arrivals));
      NextCursorIsSeen(rows, conv, cursor, limit);
      var x :| x in EligibleSet(rows, conv, cursor) && x.Key() == next.value;
      assert forall m <- arrivals[0] :: m in Flatten(arrivals);
      assert EligibleSet(arrivals[0], conv, next) == {};
      EligibleOfBoth(rows, arrivals[0], conv, next);
      assert EligibleSet(rows, conv, next) <= EligibleSet(rows, conv, cursor);
      assert rows + Flatten(arrivals) == rows + arrivals[0] + Flatten(arrivals[1..]);
      NewerArrivalsAreNeverLate(first, rows + arrivals[0], conv, next, limit, arrivals[1..]);
    }
  }

  /** Everything that arrives in the conversation sorts after all it held at the first fetch. */
  predicate AllNewer(rows: seq<Message>, conv: nat, arrivals: seq<seq<Message>>) {
    forall m <- Flatten(arrivals), x <- EligibleSet(rows, conv, None) :: m.conv == conv ==> Older(x.Key(), m.Key())
  }

  /**
   A walk during which only newer messages arrive, however many, returns exactly the conversation
   as it stood at the first fetch, oldest first, in as many fetches as that fills pages.
   */
  lemma QuietWalk(rows: seq<Message>, conv: nat, limit: int, arrivals: seq<seq<Message>>, all: seq<Message>,
                  fetches: nat)
    requires DistinctKeys(rows + Flatten(arrivals)) && AllNewer(rows, conv, arrivals)
    requires Ascending(all) && PagesFor(|all|, PageSize(limit), fetches)
    requires Elements(all) == EligibleSet(rows, conv, None) + Late(rows, conv, None, limit, arrivals)
    ensures all == OldestFirst(rows, conv)
    ensures forall m :: m in all <==> m in rows && m.conv == conv
    ensures forall i, j :: 0 <= i < j < |all| ==>
              all[i].sentAt < all[j].sentAt || (all[i].sentAt == all[j].sentAt && all[i].id < all[j].id)
    ensures PagesFor(|OldestFirst(rows, conv)|, PageSize(limit), fetches)
  {
    NewerArrivalsAreNeverLate(EligibleSet(rows, conv, None), rows, conv, None, limit, arrivals);
    WalkIsSnapshotIff(rows, conv, limit, arrivals, all);
    assert forall m :: m in all <==> m in Elements(all);
  }
}
