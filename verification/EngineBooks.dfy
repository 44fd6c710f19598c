/** The engine's books are array-based books: what the pipeline says of a reference book holds of the program's book. */
module EngineBooks {
  import opened Types
  import opened RefModel
  import opened OrderBooks
  import opened Replay
  import opened EnginePipeline

  /** The reports of one symbol, in order. */
  function ForSymbol(sym: nat, rs: seq<Routed>): seq<ExecutionReport> {
    if rs == [] then []
    else
      var n := |rs| - 1;
      ForSymbol(sym, rs[..n]) + (if rs[n].symbol == sym then [rs[n].report] else [])
  }

  lemma {:induction false} ForSymbolConcat(sym: nat, a: seq<Routed>, b: seq<Routed>)
    ensures ForSymbol(sym, a + b) == ForSymbol(sym, a) + ForSymbol(sym, b)
  {
    if b == [] {
      assert a + b == a;
    } else {
      var n := |b| - 1;
      assert (a + b)[..|a + b| - 1] == a + b[..n];
      ForSymbolConcat(sym, a, b[..n]);
    }
  }

  /** Reports all of one symbol are that symbol's, whole, and no other symbol's. */
  lemma {:induction false} ForSymbolAll(sym: nat, of: nat, rs: seq<ExecutionReport>, routed: seq<Routed>)
    requires |routed| == |rs| && forall i :: 0 <= i < |rs| ==> routed[i] == Routed(of, rs[i])
    ensures ForSymbol(sym, routed) == if sym == of then rs else []
  {
    if rs != [] {
      var n := |rs| - 1;
      ForSymbolAll(sym, of, rs[..n], routed[..n]);
    }
  }

  /** A message's reports for a symbol are those of its event on that symbol's book, if it is for that book. */
  lemma MessageReports(caps: Caps, c: Core, m: Msg, sym: nat)
    requires sym in c.books && sym < MAX_SYMBOLS
    ensures ForSymbol(sym, ReportsFor(caps, c, m))
            == if m.symbol == sym && !m.kind.Heartbeat?
               then EventReports(caps, c.books[sym], EventOf(Resolved(c, m))) else []
  {
    if Routable(c, m) && m.kind.NewOrder? {
      var o := EventOf(Resolved(c, m)).order;
      var rs := ReportsOf(o, o.qty, AddOrder(caps, c.books[m.symbol], o).fills);
      ForSymbolAll(sym, m.symbol, rs, ReportsFor(caps, c, m));
    }
  }

  lemma ReportsAppend(caps: Caps, b: RefBook, es: seq<Event>, e: Event)
    ensures RunReports(caps, b, es + [e]) == RunReports(caps, b, es) + EventReports(caps, Run(caps, b, es), e)
  {
    assert (es + [e])[..|es|] == es;
  }

  /** A symbol's part of all reports is what its book reports on its own events. */
  lemma {:induction false} SymbolReports(caps: Caps, c: Core, ms: seq<Msg>, sym: nat)
    requires sym in c.books && sym < MAX_SYMBOLS
    ensures ForSymbol(sym, AllReports(caps, c, ms))
            == RunReports(caps, c.books[sym], EventsFor(sym, ResolvedAll(caps, c, ms)))
    decreases |ms|
  {
    if ms != [] {
      var n := |ms| - 1;
      SymbolReports(caps, c, ms[..n], sym);
      BookIsFold(caps, c, ms[..n], sym);
      var before := ProcessAll(caps, c, ms[..n]);
      ForSymbolConcat(sym, AllReports(caps, c, ms[..n]), ReportsFor(caps, before, ms[n]));
      MessageReports(caps, before, ms[n], sym);
      EventsSnoc(caps, c, ms, sym);
      if ms[n].symbol == sym && !ms[n].kind.Heartbeat? {
        ReportsAppend(caps, c.books[sym], EventsFor(sym, ResolvedAll(caps, c, ms[..n])),
                      EventOf(Resolved(before, ms[n])));
      }
    }
  }

  /** The engine's book and reports of a symbol are those of the reference book run over that symbol's messages. */
  lemma SymbolRun(s0: Pipeline, acts: seq<Action>, sym: nat)
    requires Init(s0) && sym in s0.core.books
    ensures var s := After(s0, acts); var es := EventsFor(sym, ResolvedAll(s0.caps, s0.core, s.processed));
            && sym in s.core.books && s.core.books[sym] == Run(s0.caps, EMPTY_BOOK, es)
            && ForSymbol(sym, AllReports(s0.caps, s0.core, s.processed)) == RunReports(s0.caps, EMPTY_BOOK, es)
  {
    BooksFollowMessages(s0, acts, sym);
    SymbolReports(s0.caps, s0.core, After(s0, acts).processed, sym);
  }

  /** A new book fed some events. */
  method BookOf(caps: Caps, hash: nat -> nat, es: seq<Event>, ghost b: RefBook) returns (book: OrderBook)
    requires 0 < caps.maxOrders <= NULL_IDX && b == EMPTY_BOOK && Replayable(caps, b, es)
    ensures book.Sound() && book.Model() == Run(caps, b, es) && (book.Valid() <==> AdmissibleRun(caps, b, es))
    ensures book.reports == RunReports(caps, b, es)
  {
    assert [] + RunReports(caps, b, es) == RunReports(caps, b, es);
    book := new OrderBook(caps.maxLevels, caps.maxOrders, hash);
    var _ := RunEvents(book, es, caps, b);
  }

  /**
   After any interleaving, an array-based book fed the processed messages of a symbol is the engine's book of that
   symbol: the pipeline's reference book describes it, its reports are that symbol's part of the engine's, and its
   index agrees with its lists if and only if no order rested under a resting id. All orders but the last are required
   to be so, client ids and synthetic ids alike; `Replay.ReusedId` shows what goes wrong otherwise.
   */
  method EngineBook(s0: Pipeline, acts: seq<Action>, sym: nat, hash: nat -> nat) returns (book: OrderBook)
    requires Init(s0) && sym in s0.core.books && 0 < s0.caps.maxOrders <= NULL_IDX
    requires Replayable(s0.caps, EMPTY_BOOK, EventsFor(sym, ResolvedAll(s0.caps, s0.core, After(s0, acts).processed)))
    ensures var s := After(s0, acts); var es := EventsFor(sym, ResolvedAll(s0.caps, s0.core, s.processed));
            && book.Sound() && sym in s.core.books && book.Model() == s.core.books[sym]
            && book.reports == ForSymbol(sym, AllReports(s0.caps, s0.core, s.processed))
            && (book.Valid() <==> AdmissibleRun(s0.caps, EMPTY_BOOK, es))
  {
    SymbolRun(s0, acts, sym);
    book := BookOf(s0.caps, hash, EventsFor(sym, ResolvedAll(s0.caps, s0.core, After(s0, acts).processed)), EMPTY_BOOK);
  }
}
