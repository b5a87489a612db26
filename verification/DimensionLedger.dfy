/**
 * Bounded cardinality: entries are filed under a name, at most a fixed number of names is admitted,
 * and what comes later under other names is filed under a common one. Several books may share one
 * set of admitted names.
 */
module DimensionLedger {
  import opened Prelude
  import opened Tally
  import opened TelemetryEvents

  const OTHER := "__other__"

  // What an entry is filed under: a feed, a flow in the book of its kind, or any flow.
  datatype Naming = ByFeed | ByStart | ByCompletion | ByAbandon | ByAnyFlow

  // The name an entry is to be filed under, if it is filed there at all.
  function NameOf(naming: Naming, e: Entry): Option<string> {
    match e
    case Scrolled(feed, _) => if naming.ByFeed? then Some(feed) else None
    case Started(flow) => if naming.ByStart? || naming.ByAnyFlow? then Some(flow) else None
    case Completed(flow, _) => if naming.ByCompletion? || naming.ByAnyFlow? then Some(flow) else None
    case Abandoned(flow) => if naming.ByAbandon? || naming.ByAnyFlow? then Some(flow) else None
    case _ => None
  }

  // ---- selecting entries ----

  datatype Selector =
    | Under(naming: Naming, name: string)
    | FiledBy(naming: Naming)
    | NotNamed(naming: Naming, name: string)
    | TtfiSamples
    | InvalidEvents
    | AtLeast(depth: nat)

  predicate Selects(what: Selector, e: Entry) {
    match what
    case Under(naming, name) => NameOf(naming, e) == Some(name)
    case FiledBy(naming) => NameOf(naming, e).Some?
    case NotNamed(naming, name) => NameOf(naming, e) != Some(name)
    case TtfiSamples => e.Sample?
    case InvalidEvents => e.Rejected?
    case AtLeast(depth) => e.Scrolled? && e.depth >= depth
  }

  function Select(log: seq<Entry>, what: Selector): (r: seq<Entry>)
    ensures |r| <= |log|
  {
    if log == [] then []
    else
      var r, e := Select(log[..|log| - 1], what), log[|log| - 1];
      if Selects(what, e) then r + [e] else r
  }

  lemma SelectPush(log: seq<Entry>, e: Entry, what: Selector)
    ensures Select(log + [e], what) == Select(log, what) + if Selects(what, e) then [e] else []
  {
    assert (log + [e])[..|log|] == log;
  }

  lemma {:induction false} SelectNone(log: seq<Entry>, what: Selector)
    requires forall e :: e in log ==> !Selects(what, e)
    ensures Select(log, what) == []
  {
    if log != [] {
      SelectNone(log[..|log| - 1], what);
    }
  }

  /** Every entry is kept as a sample or in a book, or counted as invalid: exactly one of these. */
  lemma {:induction false} EveryEventCounts(log: seq<Entry>)
    ensures |log| == |Select(log, TtfiSamples)| + |Select(log, InvalidEvents)| + |Select(log, FiledBy(ByFeed))|
                     + |Select(log, FiledBy(ByStart))| + |Select(log, FiledBy(ByCompletion))|
                     + |Select(log, FiledBy(ByAbandon))|
  {
    if log != [] {
      EveryEventCounts(log[..|log| - 1]);
    }
  }

  // ---- books ----

  type Book = map<string, seq<Entry>>

  // The names admitted after an entry, and the one it is filed under.
  function Admit(admitted: set<string>, name: string, max: nat): (set<string>, string) {
    if name in admitted then (admitted, name)
    else if |admitted| < max then (admitted + {name}, name)
    else (admitted, OTHER)
  }

  predicate TurnsAway(admitted: set<string>, name: string, max: nat) { name !in admitted && |admitted| >= max }

  function Held(book: Book, name: string): seq<Entry> { if name in book then book[name] else [] }

  function File(book: Book, name: string, e: Entry): Book { book[name := Held(book, name) + [e]] }

  function Length(): seq<Entry> -> int { s => |s| }

  // How names are admitted: which naming asks for them, how many there may be, and which there are
  // from the start.
  datatype Policy = Policy(shared: Naming, max: nat, given: set<string>) {
    ghost predicate Sound() { OTHER in given && |given| <= max }

    // A book's own naming asks for the names that the shared one does.
    predicate Covers(naming: Naming) { naming == shared || (!naming.ByFeed? && shared.ByAnyFlow?) }
  }

  function NamesAll(log: seq<Entry>, p: Policy): set<string> {
    if log == [] then p.given
    else
      var names, name := NamesAll(log[..|log| - 1], p), NameOf(p.shared, log[|log| - 1]);
      if name.None? then names else Admit(names, name.value, p.max).0
  }

  // The book of a naming after a log.
  function BookAll(log: seq<Entry>, p: Policy, naming: Naming): Book {
    if log == [] then map[]
    else
      var init, e := log[..|log| - 1], log[|log| - 1];
      var book, name := BookAll(init, p, naming), NameOf(naming, e);
      if name.None? then book else File(book, Admit(NamesAll(init, p), name.value, p.max).1, e)
  }

  // 1 for an entry whose name is turned away.
  function Turn(names: set<string>, naming: Naming, e: Entry, max: nat): nat {
    var name := NameOf(naming, e);
    if name.Some? && TurnsAway(names, name.value, max) then 1 else 0
  }

  // How often a name was turned away.
  function TurnedAwayAll(log: seq<Entry>, p: Policy): nat {
    if log == [] then 0
    else
      var init, e := log[..|log| - 1], log[|log| - 1];
      TurnedAwayAll(init, p) + Turn(NamesAll(init, p), p.shared, e, p.max)
  }

  /** There are never more names than allowed, and all of them are taken once one was turned away. */
  lemma {:induction false} NamesHold(log: seq<Entry>, p: Policy)
    requires p.Sound()
    ensures p.given <= NamesAll(log, p) && |NamesAll(log, p)| <= p.max
    ensures forall e :: e in log && NameOf(p.shared, e).Some? ==>
              NameOf(p.shared, e).value in NamesAll(log, p) || |NamesAll(log, p)| == p.max
  {
    if log != [] {
      var init := log[..|log| - 1];
      NamesHold(init, p);
      assert forall e :: e in log <==> e in init || e == log[|log| - 1];
    }
  }

  lemma SharedName(p: Policy, naming: Naming, e: Entry)
    requires p.Covers(naming)
    ensures NameOf(naming, e).Some? ==> NameOf(p.shared, e) == NameOf(naming, e)
  {
  }

  // A name that there was room for, but that is not admitted, was never seen.
  lemma NewNameIsNew(log: seq<Entry>, p: Policy, naming: Naming, name: string)
    requires p.Sound() && p.Covers(naming) && name !in NamesAll(log, p) && |NamesAll(log, p)| < p.max
    ensures Select(log, Under(naming, name)) == []
  {
    NamesHold(log, p);
    forall e | e in log ensures !Selects(Under(naming, name), e) {
      SharedName(p, naming, e);
    }
    SelectNone(log, Under(naming, name));
  }

  lemma {:induction false} BookNamesAreAdmitted(log: seq<Entry>, p: Policy, naming: Naming)
    requires p.Sound() && p.Covers(naming)
    ensures BookAll(log, p, naming).Keys <= NamesAll(log, p)
  {
    if log != [] {
      var init, e := log[..|log| - 1], log[|log| - 1];
      BookNamesAreAdmitted(init, p, naming);
      NamesHold(init, p);
      SharedName(p, naming, e);
    }
  }

  /** Under an admitted name a book holds exactly the entries of that name, in order. */
  lemma {:induction false} BookIsExact(log: seq<Entry>, p: Policy, naming: Naming, name: string)
    requires p.Sound() && p.Covers(naming) && name in NamesAll(log, p) && name != OTHER
    ensures Held(BookAll(log, p, naming), name) == Select(log, Under(naming, name))
  {
    if log != [] {
      var init, e := log[..|log| - 1], log[|log| - 1];
      SharedName(p, naming, e);
      if name in NamesAll(init, p) {
        BookIsExact(init, p, naming, name);
      } else {
        NewNameIsNew(init, p, naming, name);
        BookNamesAreAdmitted(init, p, naming);
      }
    }
  }

  /** Nothing is lost or filed twice: a book holds as many entries as its naming files. */
  lemma {:induction false} BookIsComplete(log: seq<Entry>, p: Policy, naming: Naming)
    ensures Sum(BookAll(log, p, naming), Length()) == |Select(log, FiledBy(naming))|
  {
    if log != [] {
      var init, e := log[..|log| - 1], log[|log| - 1];
      BookIsComplete(init, p, naming);
      if NameOf(naming, e).Some? {
        var book, name := BookAll(init, p, naming), Admit(NamesAll(init, p), NameOf(naming, e).value, p.max).1;
        SumPut(book, name, Held(book, name) + [e], Length());
      }
    }
  }

  // How many entries of a book are filed under a name that is not their own.
  function Foreign(book: Book, naming: Naming, common: string): nat {
    |Select(Held(book, common), NotNamed(naming, common))|
  }

  lemma FilingForeign(book: Book, naming: Naming, common: string, name: string, e: Entry)
    ensures Foreign(File(book, name, e), naming, common) ==
            Foreign(book, naming, common) + if name == common && NameOf(naming, e) != Some(common) then 1 else 0
  {
    if name == common {
      SelectPush(Held(book, common), e, NotNamed(naming, common));
    }
  }

  function Coalesced(book: Book, naming: Naming): nat { Foreign(book, naming, OTHER) }

  // One more entry in the book of its naming.
  lemma BookCoalesces(log: seq<Entry>, p: Policy, naming: Naming, e: Entry)
    requires p.Sound() && p.Covers(naming)
    ensures Coalesced(BookAll(log + [e], p, naming), naming) ==
            Coalesced(BookAll(log, p, naming), naming) + Turn(NamesAll(log, p), naming, e, p.max)
  {
    assert (log + [e])[..|log|] == log;
    NamesHold(log, p);
    if NameOf(naming, e).Some? {
      FilingForeign(BookAll(log, p, naming), naming, OTHER,
                    Admit(NamesAll(log, p), NameOf(naming, e).value, p.max).1, e);
    }
  }

  /** The feeds' common book, apart from entries that name it themselves, is what was turned away. */
  lemma {:induction false} FeedsTurnedAway(log: seq<Entry>, p: Policy)
    requires p.Sound() && p.shared.ByFeed?
    ensures Coalesced(BookAll(log, p, ByFeed), ByFeed) == TurnedAwayAll(log, p)
  {
    if log != [] {
      FeedsTurnedAway(log[..|log| - 1], p);
      BookCoalesces(log[..|log| - 1], p, ByFeed, log[|log| - 1]);
      assert log == log[..|log| - 1] + [log[|log| - 1]];
    }
  }

  function FlowsCoalesced(log: seq<Entry>, p: Policy): nat {
    Coalesced(BookAll(log, p, ByStart), ByStart) + Coalesced(BookAll(log, p, ByCompletion), ByCompletion)
    + Coalesced(BookAll(log, p, ByAbandon), ByAbandon)
  }

  lemma NothingCoalesced(naming: Naming)
    ensures Coalesced(map[], naming) == 0
  {
  }

  lemma FlowsCoalesce(log: seq<Entry>, e: Entry, longer: seq<Entry>, p: Policy)
    requires p.Sound() && p.shared.ByAnyFlow? && longer == log + [e]
    ensures FlowsCoalesced(longer, p) - FlowsCoalesced(log, p) == TurnedAwayAll(longer, p) - TurnedAwayAll(log, p)
  {
    assert longer[..|log|] == log;
    BookCoalesces(log, p, ByStart, e);
    BookCoalesces(log, p, ByCompletion, e);
    BookCoalesces(log, p, ByAbandon, e);
    OneFlowNaming(NamesAll(log, p), e, p.max);
  }

  // A flow's entry is filed by exactly one of the three namings.
  lemma OneFlowNaming(names: set<string>, e: Entry, max: nat)
    ensures Turn(names, ByStart, e, max) + Turn(names, ByCompletion, e, max) + Turn(names, ByAbandon, e, max)
            == Turn(names, ByAnyFlow, e, max)
  {
  }

  /** And so are the flows' three common books together. */
  lemma {:induction false} FlowsTurnedAway(log: seq<Entry>, p: Policy)
    requires p.Sound() && p.shared.ByAnyFlow?
    ensures FlowsCoalesced(log, p) == TurnedAwayAll(log, p)
  {
    if log == [] {
      NothingCoalesced(ByStart);
      NothingCoalesced(ByCompletion);
      NothingCoalesced(ByAbandon);
    } else {
      var init := log[..|log| - 1];
      FlowsTurnedAway(init, p);
      FlowsCoalesce(init, log[|log| - 1], log, p);
    }
  }
}
