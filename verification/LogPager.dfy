/** The log browser: history comes in page by page, older pages in front, with a day separator wherever
    the date changes. */
module LogPager {
  import opened Basics
  import opened Numerals

  const PAGE_LIMIT := 200

  /** A row of the log table; `id` is its primary key. */
  datatype Row = Row(id: int, ts: int, kind: string, nick: Option<string>, text: string, highlight: bool)

  datatype Kind = Plain | Action | NoticeText | EventText | MentionLog

  datatype Message = Message(id: nat, ts: int, kind: Kind, nick: Option<string>, text: string, highlight: bool,
                             eventKey: Option<string>, eventParams: Option<seq<string>>, logMsgId: Option<string>)

  /** The local calendar day of a timestamp, and how a day is written out. */
  datatype Calendar = Calendar(dayOf: int -> int, format: int -> string)

  const DATE_SEPARATOR := "date_separator"

  // ---------------------------------------------------------------- the log and its query

  predicate Before(ts: int, id: int, ts1: int, id1: int) {
    ts < ts1 || (ts == ts1 && id < id1)
  }

  /** The rows of one buffer in query order; ids are primary keys that fit 64 bits. */
  predicate IsLog(log: seq<Row>) {
    && (forall i | 0 <= i < |log| :: -0x8000_0000_0000_0000 <= log[i].id < 0x8000_0000_0000_0000)
    && forall i, j | 0 <= i < j < |log| :: Before(log[i].ts, log[i].id, log[j].ts, log[j].id)
  }

  function Earlier(log: seq<Row>, ts: int, id: int): seq<Row> {
    if log == [] then []
    else (if Before(log[0].ts, log[0].id, ts, id) then [log[0]] else []) + Earlier(log[1..], ts, id)
  }

  function Newest(rows: seq<Row>, limit: nat): (r: seq<Row>)
    ensures |r| <= limit
  {
    if |rows| <= limit then rows else rows[|rows| - limit..]
  }

  /** `get_messages_paginated` */
  function Query(log: seq<Row>, cursor: Option<(int, int)>, limit: nat): (r: seq<Row>)
    ensures |r| <= limit
  {
    match cursor
    case None => Newest(log, limit)
    case Some((ts, id)) => Newest(Earlier(log, ts, id), limit)
  }

  lemma {:induction false} EarlierIsPrefix(log: seq<Row>, i: nat)
    requires IsLog(log) && i < |log|
    ensures Earlier(log, log[i].ts, log[i].id) == log[..i]
  {
    if i == 0 {
      EarlierIsNothing(log, log[0].ts, log[0].id);
    } else {
      assert log[1..][i - 1] == log[i];
      EarlierIsPrefix(log[1..], i - 1);
      assert log[..i] == [log[0]] + log[1..][..i - 1];
    }
  }

  lemma {:induction false} EarlierIsNothing(log: seq<Row>, ts: int, id: int)
    requires forall i | 0 <= i < |log| :: !Before(log[i].ts, log[i].id, ts, id)
    ensures Earlier(log, ts, id) == []
  {
    if log != [] {
      EarlierIsNothing(log[1..], ts, id);
    }
  }

  // ---------------------------------------------------------------- rendering

  function KindOf(s: string): Kind {
    if s == "action" then Action else if s == "notice" then NoticeText else if s == "event" then EventText
    else if s == "mention_log" then MentionLog else Plain
  }

  /** `stored_to_message` */
  function Stored(row: Row, id: nat): Message {
    Message(id, row.ts, KindOf(row.kind), row.nick, row.text, row.highlight, None, None, Some(PrintInt(row.id)))
  }

  function Separator(c: Calendar, ts: int, id: nat): Message {
    var text := c.format(c.dayOf(ts));
    Message(id, ts, EventText, None, text, false, Some(DATE_SEPARATOR), Some([text]), None)
  }

  /** All rows rendered at once, every message with id 0; `last` is the day of the row before. */
  function RenderFrom(c: Calendar, rows: seq<Row>, last: Option<int>): seq<Message> {
    if rows == [] then []
    else
      var day := c.dayOf(rows[0].ts);
      var rest := [Stored(rows[0], 0)] + RenderFrom(c, rows[1..], Some(day));
      if last == Some(day) then rest else [Separator(c, rows[0].ts, 0)] + rest
  }

  function Render(c: Calendar, rows: seq<Row>): seq<Message> {
    RenderFrom(c, rows, None)
  }

  function WithoutIds(messages: seq<Message>): (m: seq<Message>)
    ensures |m| == |messages|
  {
    seq(|messages|, i requires 0 <= i < |messages| => messages[i].(id := 0))
  }

  function LastDay(c: Calendar, rows: seq<Row>, last: Option<int>): Option<int> {
    if rows == [] then last else Some(c.dayOf(rows[|rows| - 1].ts))
  }

  /** The head of a rendered list: a separator where the day is a new one, then the row. */
  function RenderHead(c: Calendar, row: Row, last: Option<int>): seq<Message> {
    (if last == Some(c.dayOf(row.ts)) then [] else [Separator(c, row.ts, 0)]) + [Stored(row, 0)]
  }

  lemma RenderCons(c: Calendar, row: Row, rows: seq<Row>, last: Option<int>)
    ensures RenderFrom(c, [row] + rows, last) == RenderHead(c, row, last) + RenderFrom(c, rows, Some(c.dayOf(row.ts)))
  {
    assert ([row] + rows)[0] == row && ([row] + rows)[1..] == rows;
    var rest := RenderFrom(c, rows, Some(c.dayOf(row.ts)));
    Associate([Separator(c, row.ts, 0)], [Stored(row, 0)], rest);
    assert [] + [Stored(row, 0)] == [Stored(row, 0)];
  }

  lemma LastDayCons(c: Calendar, row: Row, rows: seq<Row>, last: Option<int>)
    ensures LastDay(c, [row] + rows, last) == LastDay(c, rows, Some(c.dayOf(row.ts)))
  {
  }

  lemma RenderConcatStep(c: Calendar, row: Row, rows: seq<Row>, b: seq<Row>, last: Option<int>)
    requires var day := Some(c.dayOf(row.ts));
             RenderFrom(c, rows + b, day) == RenderFrom(c, rows, day) + RenderFrom(c, b, LastDay(c, rows, day))
    ensures RenderFrom(c, [row] + (rows + b), last)
         == RenderFrom(c, [row] + rows, last) + RenderFrom(c, b, LastDay(c, [row] + rows, last))
  {
    var day := Some(c.dayOf(row.ts));
    RenderCons(c, row, rows, last);
    RenderCons(c, row, rows + b, last);
    LastDayCons(c, row, rows, last);
    Associate(RenderHead(c, row, last), RenderFrom(c, rows, day), RenderFrom(c, b, LastDay(c, rows, day)));
  }

  lemma Uncons(a: seq<Row>, b: seq<Row>)
    requires a != []
    ensures a == [a[0]] + a[1..] && a + b == [a[0]] + (a[1..] + b)
  {
  }

  lemma {:induction false} RenderConcat(c: Calendar, a: seq<Row>, b: seq<Row>, last: Option<int>)
    ensures RenderFrom(c, a + b, last) == RenderFrom(c, a, last) + RenderFrom(c, b, LastDay(c, a, last))
  {
    if a == [] {
      assert a + b == b;
    } else {
      RenderConcat(c, a[1..], b, Some(c.dayOf(a[0].ts)));
      RenderConcatStep(c, a[0], a[1..], b, last);
      Uncons(a, b);
    }
  }

  /** What a page in front does to the separator at the head. */
  function DropHeadSeparator(c: Calendar, messages: seq<Message>, rows: seq<Row>): seq<Message> {
    if rows != [] && messages != [] && messages[0].eventKey == Some(DATE_SEPARATOR)
       && c.dayOf(messages[0].ts) == c.dayOf(rows[|rows| - 1].ts)
    then messages[1..] else messages
  }

  lemma RenderSplits(c: Calendar, rows: seq<Row>, last: Option<int>)
    requires rows != []
    ensures var body := RenderFrom(c, rows, Some(c.dayOf(rows[0].ts)));
            && Render(c, rows) == [Separator(c, rows[0].ts, 0)] + body
            && RenderFrom(c, rows, last) == if last == Some(c.dayOf(rows[0].ts)) then body else Render(c, rows)
  {
  }

  lemma HeadDrops(c: Calendar, rows: seq<Row>, locals: seq<Message>, older: seq<Row>)
    requires rows != []
    ensures DropHeadSeparator(c, Render(c, rows) + locals, older)
            == RenderFrom(c, rows, LastDay(c, older, None)) + locals
  {
    RenderSplits(c, rows, LastDay(c, older, None));
    var body := RenderFrom(c, rows, Some(c.dayOf(rows[0].ts)));
    var all := Render(c, rows) + locals;
    assert all[0] == Separator(c, rows[0].ts, 0) && all[1..] == body + locals;
  }

  /** The seam: a page put in front of rendered rows, the head separator adjusted, is what rendering all
      rows at once gives. */
  lemma SeamIsInvisible(c: Calendar, older: seq<Row>, rows: seq<Row>, locals: seq<Message>)
    requires rows != []
    ensures Render(c, older) + DropHeadSeparator(c, Render(c, rows) + locals, older) == Render(c, older + rows) + locals
  {
    HeadDrops(c, rows, locals, older);
    RenderConcat(c, older, rows, None);
    Associate(Render(c, older), RenderFrom(c, rows, LastDay(c, older, None)), locals);
  }

  // ---------------------------------------------------------------- the buffer as a value

  /** What the database answers: there is none to ask, the query fails, or it is run on the log. */
  datatype Db = Absent | Failing | Answers(log: seq<Row>)

  datatype Pager = Pager(messages: seq<Message>, exhausted: bool, loaded: bool)

  const EMPTY_PAGER := Pager([], false, false)

  /** `load_initial_messages` */
  function LoadInitial(c: Calendar, p: Pager, db: Db): Pager {
    if p.loaded || db.Absent? then p
    else if db.Failing? then p.(loaded := true)
    else
      var rows := Query(db.log, None, PAGE_LIMIT);
      Pager(Render(c, rows) + p.messages, |rows| < PAGE_LIMIT, true)
  }

  /** Rust's `parse::<i64>()` on what `to_string` prints. */
  function ParseRowId(s: string): Option<int> {
    var digits := if s != "" && (s[0] == '-' || s[0] == '+') then s[1..] else s;
    if digits == "" || exists i :: 0 <= i < |digits| && !IsDigit(digits[i]) then None
    else
      var n := Accumulate(digits, 0, false);
      if n.None? then None
      else
        var v: int := if s[0] == '-' then -(n.value as int) else n.value;
        if -0x8000_0000_0000_0000 <= v < 0x8000_0000_0000_0000 then Some(v) else None
  }

  /** The first message that came from the log. */
  function Oldest(messages: seq<Message>): Option<Message> {
    if messages == [] then None
    else if messages[0].logMsgId.Some? then Some(messages[0])
    else Oldest(messages[1..])
  }

  /** `load_older_messages` */
  function LoadOlder(c: Calendar, p: Pager, db: Db): Pager {
    if p.exhausted then p
    else
      match Oldest(p.messages)
      case None => LoadInitial(c, p, db)
      case Some(m) =>
        var id := if m.logMsgId.Some? then ParseRowId(m.logMsgId.value) else None;
        if id.None? || !db.Answers? then p
        else
          var rows := Query(db.log, Some((m.ts, id.value)), PAGE_LIMIT);
          Pager(Render(c, rows) + DropHeadSeparator(c, p.messages, rows), p.exhausted || |rows| < PAGE_LIMIT, p.loaded)
  }

  // ---------------------------------------------------------------- what paging shows

  /** The newest `pages` pages of the log as rendered in one go, then the local events; exhausted once more
      rows were asked for than there are. */
  ghost predicate Shows(c: Calendar, log: seq<Row>, p: Pager, pages: nat, locals: seq<Message>) {
    var n := |log|;
    && p.messages == Render(c, log[n - Min(PAGE_LIMIT * pages, n)..]) + locals
    && (p.exhausted <==> n < PAGE_LIMIT * pages)
  }

  predicate AreLocal(locals: seq<Message>) {
    forall i | 0 <= i < |locals| :: locals[i].logMsgId.None?
  }

  lemma {:induction false} LocalsHaveNoRow(locals: seq<Message>)
    requires AreLocal(locals)
    ensures Oldest(locals).None?
  {
    if locals != [] {
      LocalsHaveNoRow(locals[1..]);
    }
  }

  lemma RowIdRoundTrip(id: int)
    requires -0x8000_0000_0000_0000 <= id < 0x8000_0000_0000_0000
    ensures ParseRowId(PrintInt(id)) == Some(id)
  {
    var n: nat := if id < 0 then -id else id;
    AccumulatePrint(n);
    assert IsDigit(Print(n)[0]);
    if id < 0 {
      assert ("-" + Print(n))[1..] == Print(n);
    }
  }

  /** The cursor taken off a rendered run is its oldest row. */
  lemma OldestIsFirstRow(c: Calendar, rows: seq<Row>, locals: seq<Message>)
    requires rows != []
    ensures Oldest(Render(c, rows) + locals) == Some(Stored(rows[0], 0))
  {
    var body := [Stored(rows[0], 0)] + RenderFrom(c, rows[1..], Some(c.dayOf(rows[0].ts)));
    assert Render(c, rows) == [Separator(c, rows[0].ts, 0)] + body;
    assert (Render(c, rows) + locals)[1..] == body + locals;
    assert (body + locals)[0] == Stored(rows[0], 0);
  }

  lemma FirstPageShows(c: Calendar, log: seq<Row>, p: Pager)
    requires !p.loaded
    ensures Shows(c, log, LoadInitial(c, p, Answers(log)), 1, p.messages)
  {
    assert log[0..] == log;
  }

  lemma SameStart(log: seq<Row>, grown: seq<Row>, i: nat)
    requires log <= grown && i < |log|
    ensures grown[i] == log[i] && grown[..i] == log[..i]
  {
    assert log == grown[..|log|];
  }

  /** A page in front of the run that starts at row `i` of a log that may have grown at the end since. */
  lemma OlderPage(c: Calendar, log: seq<Row>, grown: seq<Row>, i: nat, locals: seq<Message>)
    requires IsLog(grown) && log <= grown && i < |log|
    ensures var m := Min(PAGE_LIMIT, i);
            LoadOlder(c, Pager(Render(c, log[i..]) + locals, false, true), Answers(grown))
            == Pager(Render(c, log[i - m..]) + locals, i < PAGE_LIMIT, true)
  {
    var shown := log[i..];
    OldestIsFirstRow(c, shown, locals);
    RowIdRoundTrip(grown[i].id);
    EarlierIsPrefix(grown, i);
    SameStart(log, grown, i);
    var older := Newest(log[..i], PAGE_LIMIT);
    SeamIsInvisible(c, older, shown, locals);
    NewestExtends(log, i);
  }

  lemma NewestExtends(log: seq<Row>, i: nat)
    requires i <= |log|
    ensures Newest(log[..i], PAGE_LIMIT) + log[i..] == log[i - Min(PAGE_LIMIT, i)..]
  {
  }

  /** One more page: the next older rows, none skipped and none twice. */
  lemma NextPageShows(c: Calendar, log: seq<Row>, grown: seq<Row>, p: Pager, pages: nat, locals: seq<Message>)
    requires IsLog(grown) && log <= grown && p.loaded && pages > 0 && Shows(c, log, p, pages, locals)
    ensures Shows(c, log, LoadOlder(c, p, Answers(grown)), pages + 1, locals)
  {
    var n := |log|;
    if p.exhausted {
      assert Min(PAGE_LIMIT * pages, n) == Min(PAGE_LIMIT * (pages + 1), n) == n;
    } else {
      NoRowsOverdrawn(c, log, p, pages, locals);
      var i := n - PAGE_LIMIT * pages;
      assert p == Pager(Render(c, log[i..]) + locals, false, true);
      OlderPage(c, log, grown, i, locals);
      assert i - Min(PAGE_LIMIT, i) == n - Min(PAGE_LIMIT * (pages + 1), n);
    }
  }

  lemma NoRowsOverdrawn(c: Calendar, log: seq<Row>, p: Pager, pages: nat, locals: seq<Message>)
    requires pages > 0 && !p.exhausted && Shows(c, log, p, pages, locals)
    ensures PAGE_LIMIT <= PAGE_LIMIT * pages <= |log|
    ensures p.messages == Render(c, log[|log| - PAGE_LIMIT * pages..]) + locals
  {
  }

  /** What the user does to a log buffer, and how the database fares when it is asked. */
  datatype Action = Open(db: Db) | ScrollUp(db: Db) | LocalEvent(msg: Message)

  function Append(p: Pager, msg: Message): Pager {
    p.(messages := p.messages + [msg.(id := 0)])
  }

  function Do(c: Calendar, p: Pager, a: Action): Pager {
    match a
    case Open(db) => LoadInitial(c, p, db)
    case ScrollUp(db) => LoadOlder(c, p, db)
    case LocalEvent(msg) => Append(p, msg)
  }

  function DoAll(c: Calendar, actions: seq<Action>): Pager {
    if actions == [] then EMPTY_PAGER else Do(c, DoAll(c, actions[..|actions| - 1]), actions[|actions| - 1])
  }

  /** How the database fared when it was there to be asked for the first time. */
  function FirstOutcome(actions: seq<Action>): Option<Db> {
    if actions == [] then None
    else
      var before, last := FirstOutcome(actions[..|actions| - 1]), actions[|actions| - 1];
      if before.Some? || last.LocalEvent? || last.db.Absent? then before else Some(last.db)
  }

  predicate FirstAnswered(actions: seq<Action>) {
    FirstOutcome(actions).Some? && FirstOutcome(actions).value.Answers?
  }

  /** The successful loads: the first answer, and every scroll-up with an answer after that. */
  function Pages(actions: seq<Action>): nat {
    if !FirstAnswered(actions) then 0
    else
      var init, last := actions[..|actions| - 1], actions[|actions| - 1];
      if !FirstAnswered(init) then 1
      else Pages(init) + if last.ScrollUp? && last.db.Answers? then 1 else 0
  }

  function Locals(actions: seq<Action>): seq<Message> {
    if actions == [] then []
    else
      var before := Locals(actions[..|actions| - 1]);
      match actions[|actions| - 1]
      case LocalEvent(msg) => before + [msg.(id := 0)]
      case _ => before
  }

  /** Local events carry no row, and every answer comes from this log or from what it grew into. */
  predicate Plausible(actions: seq<Action>, log: seq<Row>) {
    && (FirstAnswered(actions) ==> FirstOutcome(actions).value.log == log)
    && forall i | 0 <= i < |actions| ::
         match actions[i]
         case LocalEvent(msg) => msg.logMsgId.None?
         case _ => actions[i].db.Answers? ==> IsLog(actions[i].db.log) && log <= actions[i].db.log
  }

  /** The buffer after these actions. */
  ghost predicate Stands(c: Calendar, log: seq<Row>, p: Pager, first: Option<Db>, pages: nat, locals: seq<Message>) {
    && p.loaded == first.Some?
    && if first.Some? && first.value.Answers? then pages > 0 && Shows(c, log, p, pages, locals)
       else pages == 0 && p.messages == locals && !p.exhausted
  }

  lemma AppendingStands(c: Calendar, log: seq<Row>, p: Pager, first: Option<Db>, pages: nat, locals: seq<Message>,
                        msg: Message)
    requires Stands(c, log, p, first, pages, locals)
    ensures Stands(c, log, Append(p, msg), first, pages, locals + [msg.(id := 0)])
  {
    Associate(Render(c, log[|log| - Min(PAGE_LIMIT * pages, |log|)..]), locals, [msg.(id := 0)]);
  }

  /** Before the first answer or failure a scroll-up asks as opening does. */
  lemma NothingToScroll(c: Calendar, p: Pager, db: Db)
    requires AreLocal(p.messages) && !p.exhausted
    ensures LoadOlder(c, p, db) == LoadInitial(c, p, db)
  {
    LocalsHaveNoRow(p.messages);
  }

  /** A load that opens the buffer or finds it open. */
  lemma OpeningStands(c: Calendar, log: seq<Row>, p: Pager, first: Option<Db>, pages: nat, locals: seq<Message>, db: Db)
    requires Stands(c, log, p, first, pages, locals)
    requires first.None? && db.Answers? ==> db.log == log
    ensures var first1 := if first.Some? || db.Absent? then first else Some(db);
            var pages1 := if first.None? && db.Answers? then 1 else pages;
            Stands(c, log, LoadInitial(c, p, db), first1, pages1, locals)
  {
    if first.None? && db.Answers? {
      FirstPageShows(c, log, p);
    }
  }

  lemma ScrollingStands(c: Calendar, log: seq<Row>, p: Pager, first: Option<Db>, pages: nat, locals: seq<Message>,
                        db: Db)
    requires Stands(c, log, p, first, pages, locals) && AreLocal(locals)
    requires first.None? && db.Answers? ==> db.log == log
    requires db.Answers? ==> IsLog(db.log) && log <= db.log
    ensures var first1 := if first.Some? || db.Absent? then first else Some(db);
            var more := db.Answers? && (first.None? || first.value.Answers?);
            Stands(c, log, LoadOlder(c, p, db), first1, if more then pages + 1 else pages, locals)
  {
    if first.Some? && first.value.Answers? {
      if db.Answers? {
        NextPageShows(c, log, db.log, p, pages, locals);
      } else {
        ScrollingInVain(c, log, p, pages, locals, db);
      }
    } else {
      NothingToScroll(c, p, db);
      OpeningStands(c, log, p, first, pages, locals, db);
    }
  }

  lemma ScrollingInVain(c: Calendar, log: seq<Row>, p: Pager, pages: nat, locals: seq<Message>, db: Db)
    requires pages > 0 && Shows(c, log, p, pages, locals) && !db.Answers?
    ensures LoadOlder(c, p, db) == p
  {
    if !p.exhausted {
      NoRowsOverdrawn(c, log, p, pages, locals);
      OldestIsFirstRow(c, log[|log| - PAGE_LIMIT * pages..], locals);
    }
  }

  lemma {:induction false} ActionsStand(c: Calendar, log: seq<Row>, actions: seq<Action>)
    requires Plausible(actions, log)
    ensures AreLocal(Locals(actions))
    ensures Stands(c, log, DoAll(c, actions), FirstOutcome(actions), Pages(actions), Locals(actions))
  {
    if actions != [] {
      var init := actions[..|actions| - 1];
      assert FirstOutcome(init).Some? ==> FirstOutcome(actions) == FirstOutcome(init);
      ActionsStand(c, log, init);
      var (p, first, pages, locals) := (DoAll(c, init), FirstOutcome(init), Pages(init), Locals(init));
      match actions[|actions| - 1]
      case Open(db) => OpeningStands(c, log, p, first, pages, locals, db);
      case ScrollUp(db) => ScrollingStands(c, log, p, first, pages, locals, db);
      case LocalEvent(msg) => AppendingStands(c, log, p, first, pages, locals, msg);
    }
  }

  lemma ExhaustedAfter(pages: nat, n: nat)
    ensures n < PAGE_LIMIT * pages <==> pages >= n / PAGE_LIMIT + 1
  {
  }

  /** Paging equals one-shot rendering. Whatever the order of loads, failures and local events: if the
      first time the database was there it answered, the buffer is the newest pages of the log rendered at
      once, one per successful load, then the local events, and the history counts as exhausted exactly from
      n / 200 + 1 successful loads on. */
  lemma PagingIsRendering(c: Calendar, log: seq<Row>, actions: seq<Action>)
    requires Plausible(actions, log) && FirstAnswered(actions)
    ensures var (p, rows) := (DoAll(c, actions), Min(PAGE_LIMIT * Pages(actions), |log|));
            && p.messages == Render(c, log[|log| - rows..]) + Locals(actions)
            && (p.exhausted <==> Pages(actions) >= |log| / PAGE_LIMIT + 1)
  {
    ActionsStand(c, log, actions);
    ExhaustedAfter(Pages(actions), |log|);
  }

  /** History is shown exactly when the database answered, from a log with rows, the first time it was there
      to be asked. A failure that time is final: no later load shows any row. */
  lemma ShownIffFirstAnswered(c: Calendar, log: seq<Row>, actions: seq<Action>)
    requires Plausible(actions, log)
    ensures Oldest(DoAll(c, actions).messages).Some? <==> FirstAnswered(actions) && log != []
    ensures !FirstAnswered(actions) ==> DoAll(c, actions).messages == Locals(actions) && !DoAll(c, actions).exhausted
  {
    ActionsStand(c, log, actions);
    LocalsHaveNoRow(Locals(actions));
    if FirstAnswered(actions) {
      var rows := log[|log| - Min(PAGE_LIMIT * Pages(actions), |log|)..];
      if log == [] {
        assert rows == [] && DoAll(c, actions).messages == Locals(actions);
      } else {
        OldestIsFirstRow(c, rows, Locals(actions));
      }
    }
  }

  lemma LoadAfterOutcome(actions: seq<Action>, load: Action)
    requires FirstOutcome(actions).Some? && !load.LocalEvent?
    ensures FirstOutcome(actions + [load]) == FirstOutcome(actions) && Locals(actions + [load]) == Locals(actions)
  {
    assert (actions + [load])[..|actions|] == actions;
  }

  /** A log of one row, whose first query fails: opening the buffer again and scrolling up show nothing. */
  lemma FailedQueryHidesRow(c: Calendar, row: Row)
    requires IsLog([row])
    ensures DoAll(c, [Open(Failing)] + [Open(Answers([row]))] + [ScrollUp(Answers([row]))]).messages == []
  {
    var first := [Open(Failing)];
    assert first[..0] == [];
    assert FirstOutcome(first) == Some(Failing) && Locals(first) == [];
    LoadAfterOutcome(first, Open(Answers([row])));
    LoadAfterOutcome(first + [Open(Answers([row]))], ScrollUp(Answers([row])));
    ShownIffFirstAnswered(c, [row], first + [Open(Answers([row]))] + [ScrollUp(Answers([row]))]);
  }

  // ---------------------------------------------------------------- the program

  class LogBuffer {
    const c: Calendar
    var messages: seq<Message>
    var exhausted: bool
    var loaded: bool
    var messageCounter: nat

    constructor (c: Calendar)
      ensures this.c == c && View() == EMPTY_PAGER
    {
      this.c := c;
      messages, exhausted, loaded, messageCounter := [], false, false, 0;
    }

    /** The buffer but for the ids, which say only in what order messages were made. */
    ghost function View(): Pager
      reads this
    {
      Pager(WithoutIds(messages), exhausted, loaded)
    }

    method NextMessageId() returns (id: nat)
      modifies this`messageCounter
      ensures id == messageCounter == old(messageCounter) + 1
    {
      messageCounter := messageCounter + 1;
      return messageCounter;
    }

    /** `rows_to_buffer_messages` */
    method RowsToBufferMessages(rows: seq<Row>) returns (out: seq<Message>)
      modifies this`messageCounter
      ensures WithoutIds(out) == Render(c, rows)
      ensures messageCounter == old(messageCounter) + |out|
      ensures forall i | 0 <= i < |out| :: out[i].id == old(messageCounter) + 1 + i
    {
      out := [];
      var lastDate: Option<int> := None;
      for i := 0 to |rows|
        invariant lastDate == LastDay(c, rows[..i], None)
        invariant WithoutIds(out) == Render(c, rows[..i])
        invariant messageCounter == old(messageCounter) + |out|
        invariant forall j | 0 <= j < |out| :: out[j].id == old(messageCounter) + 1 + j
      {
        ghost var before := out;
        var day := c.dayOf(rows[i].ts);
        if lastDate != Some(day) {
          var id := NextMessageId();
          out := out + [Separator(c, rows[i].ts, id)];
        }
        lastDate := Some(day);
        var id := NextMessageId();
        out := out + [Stored(rows[i], id)];
        RenderOneMore(c, rows, i);
        assert WithoutIds(out) == WithoutIds(before)
               + (if LastDay(c, rows[..i], None) == Some(day) then [] else [Separator(c, rows[i].ts, 0)])
               + [Stored(rows[i], 0)];
      }
      assert rows[..|rows|] == rows;
    }

    method LoadInitialMessages(db: Db)
      modifies this
      ensures View() == LoadInitial(c, old(View()), db)
    {
      if loaded {
        return;
      }
      match db
      case Absent =>
      case Failing => loaded := true;
      case Answers(log) =>
        var rows := Query(log, None, PAGE_LIMIT);
        var page := RowsToBufferMessages(rows);
        if messages == [] {
          messages := page;
        } else {
          PushFront(page);
        }
        exhausted := |rows| < PAGE_LIMIT;
        loaded := true;
    }

    method LoadOlderMessages(db: Db)
      modifies this
      ensures View() == LoadOlder(c, old(View()), db)
    {
      if exhausted {
        return;
      }
      IdsDoNotMatter(messages);
      var oldest := Oldest(messages);
      if oldest.None? {
        LoadInitialMessages(db);
        return;
      }
      var id := if oldest.value.logMsgId.Some? then ParseRowId(oldest.value.logMsgId.value) else None;
      if id.None? || !db.Answers? {
        return;
      }
      var rows := Query(db.log, Some((oldest.value.ts, id.value)), PAGE_LIMIT);
      PopHeadSeparator(rows);
      var page := RowsToBufferMessages(rows);
      PushFront(page);
      if |rows| < PAGE_LIMIT {
        exhausted := true;
      }
    }

    /** Takes the separator off the head if the page about to come in will bring its own. */
    method PopHeadSeparator(rows: seq<Row>)
      modifies this`messages
      ensures WithoutIds(messages) == DropHeadSeparator(c, WithoutIds(old(messages)), rows)
    {
      if rows != [] && messages != [] && messages[0].eventKey == Some(DATE_SEPARATOR)
         && c.dayOf(messages[0].ts) == c.dayOf(rows[|rows| - 1].ts) {
        messages := messages[1..];
        assert WithoutIds(messages) == WithoutIds(old(messages))[1..];
      }
    }

    /** Puts the page in front, last message first. */
    method PushFront(page: seq<Message>)
      modifies this`messages
      ensures messages == page + old(messages)
      ensures WithoutIds(messages) == WithoutIds(page) + WithoutIds(old(messages))
    {
      var i := |page|;
      while i > 0
        invariant 0 <= i <= |page| && messages == page[i..] + old(messages)
      {
        i := i - 1;
        messages := [page[i]] + messages;
      }
    }

    method AddLocalEvent(msg: Message)
      modifies this
      ensures View() == old(View()).(messages := old(View()).messages + [msg.(id := 0)])
    {
      var id := NextMessageId();
      messages := messages + [msg.(id := id)];
      assert WithoutIds(messages) == WithoutIds(old(messages)) + [msg.(id := 0)];
    }
  }

  lemma RenderOneMore(c: Calendar, rows: seq<Row>, i: nat)
    requires i < |rows|
    ensures var day := c.dayOf(rows[i].ts);
            Render(c, rows[..i + 1]) == Render(c, rows[..i])
              + (if LastDay(c, rows[..i], None) == Some(day) then [] else [Separator(c, rows[i].ts, 0)])
              + [Stored(rows[i], 0)]
    ensures LastDay(c, rows[..i + 1], None) == Some(c.dayOf(rows[i].ts))
  {
    assert rows[..i + 1] == rows[..i] + [rows[i]];
    RenderConcat(c, rows[..i], [rows[i]], None);
    assert [rows[i]][1..] == [];
  }

  lemma {:induction false} IdsDoNotMatter(messages: seq<Message>)
    ensures Oldest(WithoutIds(messages)) == match Oldest(messages) case None => None case Some(m) => Some(m.(id := 0))
  {
    if messages != [] {
      assert WithoutIds(messages)[1..] == WithoutIds(messages[1..]);
      IdsDoNotMatter(messages[1..]);
    }
  }
}
