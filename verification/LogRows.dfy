/** What a log buffer shows, message by message: where each row of the log stands, what of the row is seen, and
    where the days begin. */
module LogRows {
  import opened Basics
  import opened LogPager
  import Numerals

  /** The row is the first, or another day than the row before. */
  predicate StartsDay(c: Calendar, rows: seq<Row>, i: nat)
    requires i < |rows|
  {
    i == 0 || c.dayOf(rows[i].ts) != c.dayOf(rows[i - 1].ts)
  }

  /** How many of the first rows start a day. */
  function Days(c: Calendar, rows: seq<Row>, n: nat): nat
    requires n <= |rows|
  {
    if n == 0 then 0 else Days(c, rows, n - 1) + if StartsDay(c, rows, n - 1) then 1 else 0
  }

  /** Where the row stands: behind the rows before it and the separators of all days begun by then. */
  function Place(c: Calendar, rows: seq<Row>, i: nat): nat
    requires i < |rows|
  {
    i + Days(c, rows, i + 1)
  }

  predicate Spells(kind: Kind, s: string) {
    && (kind == Action <==> s == "action") && (kind == NoticeText <==> s == "notice")
    && (kind == EventText <==> s == "event") && (kind == MentionLog <==> s == "mention_log")
  }

  /** The message shows the row: its time, writer, text, highlight and kind, and it remembers the row's number. */
  predicate IsRow(m: Message, row: Row) {
    && m.ts == row.ts && m.nick == row.nick && m.text == row.text && m.highlight == row.highlight
    && Spells(m.kind, row.kind) && m.logMsgId == Some(Numerals.PrintInt(row.id))
    && m.eventKey == None && m.eventParams == None
  }

  /** The message is the separator of the day at this time. */
  predicate IsDay(c: Calendar, m: Message, ts: int) {
    var day := c.format(c.dayOf(ts));
    && m.ts == ts && m.nick == None && m.text == day && !m.highlight && m.kind == EventText
    && m.eventKey == Some("date_separator") && m.eventParams == Some([day]) && m.logMsgId == None
  }

  predicate RowShown(c: Calendar, messages: seq<Message>, rows: seq<Row>, i: nat)
    requires i < |rows|
  {
    var at := Place(c, rows, i);
    && at < |messages| && IsRow(messages[at], rows[i])
    && (StartsDay(c, rows, i) ==> at > 0 && IsDay(c, messages[at - 1], rows[i].ts))
  }

  /** The messages are the rows and their days, one message each. */
  predicate Exactly(c: Calendar, messages: seq<Message>, rows: seq<Row>) {
    |messages| == |rows| + Days(c, rows, |rows|) && forall i | 0 <= i < |rows| :: RowShown(c, messages, rows, i)
  }

  lemma {:induction false} DaysOfPrefix(c: Calendar, rows: seq<Row>, last: Row, n: nat)
    requires n <= |rows|
    ensures Days(c, rows + [last], n) == Days(c, rows, n)
  {
    if n > 0 {
      DaysOfPrefix(c, rows, last, n - 1);
    }
  }

  lemma {:induction false} DaysGrow(c: Calendar, rows: seq<Row>, i: nat, n: nat)
    requires i <= n <= |rows|
    ensures Days(c, rows, i) <= Days(c, rows, n)
  {
    if i < n {
      DaysGrow(c, rows, i, n - 1);
    }
  }

  lemma OneMoreRow(c: Calendar, messages: seq<Message>, rows: seq<Row>, last: Row)
    requires Exactly(c, messages, rows)
    ensures var all := rows + [last];
            var head := if StartsDay(c, all, |rows|) then [Separator(c, last.ts, 0)] else [];
            Exactly(c, messages + head + [Stored(last, 0)], all)
  {
    var all := rows + [last];
    var head := if StartsDay(c, all, |rows|) then [Separator(c, last.ts, 0)] else [];
    var more := messages + head + [Stored(last, 0)];
    DaysOfPrefix(c, rows, last, |rows|);
    forall i | 0 <= i < |rows|
      ensures RowShown(c, more, all, i)
    {
      assert more == messages + (head + [Stored(last, 0)]);
      StillShown(c, messages, head + [Stored(last, 0)], rows, last, i);
    }
    assert RowShown(c, more, all, |rows|);
  }

  lemma StillShown(c: Calendar, messages: seq<Message>, tail: seq<Message>, rows: seq<Row>, last: Row, i: nat)
    requires Exactly(c, messages, rows) && i < |rows|
    ensures RowShown(c, messages + tail, rows + [last], i)
  {
    DaysOfPrefix(c, rows, last, i + 1);
    DaysGrow(c, rows, i + 1, |rows|);
    assert RowShown(c, messages, rows, i);
  }

  /** Rendered rows, message by message. */
  lemma {:induction false} RenderShows(c: Calendar, rows: seq<Row>)
    ensures Exactly(c, Render(c, rows), rows)
  {
    if rows != [] {
      var (init, last) := (rows[..|rows| - 1], rows[|rows| - 1]);
      assert rows == init + [last];
      RenderShows(c, init);
      RenderOneMore(c, rows, |init|);
      assert rows[..|rows|] == rows;
      assert LastDay(c, init, None) == Some(c.dayOf(last.ts)) <==> !StartsDay(c, rows, |init|);
      OneMoreRow(c, Render(c, init), init, last);
    }
  }

  /** First the rows, exactly, and then these messages. */
  predicate RowsThen(c: Calendar, messages: seq<Message>, rows: seq<Row>, locals: seq<Message>) {
    var n := |messages| - |locals|;
    n >= 0 && Exactly(c, messages[..n], rows) && messages[n..] == locals
  }

  /** Whatever the user did and however the database fared, if it answered when it was first there to be asked: the
      buffer shows exactly the newest 200 rows of the log for every successful load, in order, with a separator
      wherever a day begins, and then the local events. */
  lemma BufferShows(c: Calendar, log: seq<Row>, actions: seq<Action>)
    requires Plausible(actions, log) && FirstAnswered(actions)
    ensures var asked := 200 * Pages(actions);
            var rows := log[if asked < |log| then |log| - asked else 0..];
            && RowsThen(c, DoAll(c, actions).messages, rows, Locals(actions))
            && (DoAll(c, actions).exhausted <==> asked > |log|)
  {
    var asked := 200 * Pages(actions);
    var rows := log[if asked < |log| then |log| - asked else 0..];
    NewestRendered(c, log, actions, rows);
    RenderThen(c, DoAll(c, actions).messages, rows, Locals(actions));
  }

  lemma RenderThen(c: Calendar, messages: seq<Message>, rows: seq<Row>, locals: seq<Message>)
    requires messages == Render(c, rows) + locals
    ensures RowsThen(c, messages, rows, locals)
  {
    RenderShows(c, rows);
    Halves(Render(c, rows), locals);
  }

  lemma NewestRendered(c: Calendar, log: seq<Row>, actions: seq<Action>, rows: seq<Row>)
    requires Plausible(actions, log) && FirstAnswered(actions)
    requires var asked := 200 * Pages(actions); rows == log[if asked < |log| then |log| - asked else 0..]
    ensures DoAll(c, actions).messages == Render(c, rows) + Locals(actions)
    ensures DoAll(c, actions).exhausted <==> 200 * Pages(actions) > |log|
  {
    PagingIsRendering(c, log, actions);
    ExhaustedAfter(Pages(actions), |log|);
  }

  lemma Halves(a: seq<Message>, b: seq<Message>)
    ensures (a + b)[..|a + b| - |b|] == a && (a + b)[|a + b| - |b|..] == b
  {
  }
}
