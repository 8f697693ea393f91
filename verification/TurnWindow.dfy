/** Which turns a page holds, and paging back through a session while it grows. */
module TurnWindow {
  import opened Options
  import opened Events
  import opened TurnRule
  import opened IndexRules
  import opened TurnIndex
  import opened IndexFacts

  /** The turns first..last of a session, and whether older ones remain; empty when last < first. */
  datatype Page = Page(first: nat, last: nat, more: bool)

  /** Turn numbers are exactly 1..n, as in every current index. */
  ghost predicate Numbered(turns: map<nat, TurnRow>, n: nat) {
    forall k :: k in turns <==> 1 <= k <= n
  }

  // ---------------------------------------------------------------- the queries

  /** SELECT turn_seq FROM turns WHERE turn_seq <= top AND has_user_message=1 ORDER BY turn_seq DESC LIMIT 1 OFFSET m. */
  function NthPrompt(turns: map<nat, TurnRow>, top: nat, m: nat): Option<nat> {
    if top == 0 then None
    else if top in turns && turns[top].hasUserMessage then
      if m == 0 then Some(top) else NthPrompt(turns, top - 1, m - 1)
    else NthPrompt(turns, top - 1, m)
  }

  /** SELECT COUNT(*) of the prompt turns numbered from..to. */
  function Prompts(turns: map<nat, TurnRow>, from: nat, to: nat): nat {
    if to < from || to == 0 then 0
    else Prompts(turns, from, to - 1) + if to in turns && turns[to].hasUserMessage then 1 else 0
  }

  /** The newest event of the session below an id. */
  function NewestBelow(eventTurns: map<nat, nat>, id: nat): (found: Option<nat>)
    ensures found.Some? ==> found.value in eventTurns && found.value < id
  {
    if id == 0 then None
    else if id - 1 in eventTurns then Some(id - 1)
    else NewestBelow(eventTurns, id - 1)
  }

  /** The upper bound a cursor sets: the last turn number in range, or None when the cursor is below every
      event. No cursor sets no bound; a cursor that is no event of the session stands for the newest event
      below it, and includes that event's turn. */
  function Top(t: Tables, n: nat, before: int): (top: Option<nat>)
    ensures top.Some? ==> top.value <= n
  {
    if before <= 0 then Some(n)
    else if before in t.eventTurns then
      var k := t.eventTurns[before];
      Some(if k == 0 || n < k - 1 then n else k - 1)
    else
      match NewestBelow(t.eventTurns, before)
      case None => None
      case Some(id) => Some(if n < t.eventTurns[id] then n else t.eventTurns[id])
  }

  function Limit(limit: int): (l: nat)
    ensures l > 0
  {
    if limit <= 0 then 30 else limit
  }

  function Min(a: nat, b: nat): nat {
    if a < b then a else b
  }

  /** The lower bound: the limit-th newest prompt turn in range; turn 1 when there are fewer; and without
      any prompt in range, the limit-th newest turn. */
  function StartOf(turns: map<nat, TurnRow>, top: nat, limit: nat): nat
    requires limit > 0
  {
    match NthPrompt(turns, top, limit - 1)
    case Some(k) => k
    case None =>
      if Prompts(turns, 1, top) > 0 then 1
      else if limit - 1 < top then top - (limit - 1) else 1
  }

  /** TurnWindow, on a current index of n turns. */
  function WindowOf(t: Tables, n: nat, limit: int, before: int): Page {
    match Top(t, n, before)
    case None => Page(1, 0, false)
    case Some(top) =>
      var start := StartOf(t.turns, top, Limit(limit));
      Page(start, top, start > 1)
  }

  // ---------------------------------------------------------------- what a page holds

  lemma {:induction false} NthPromptFacts(turns: map<nat, TurnRow>, top: nat, m: nat)
    ensures var found := NthPrompt(turns, top, m);
            && (found.Some? <==> Prompts(turns, 1, top) > m)
            && (found.Some? ==>
                  && 1 <= found.value <= top && found.value in turns && turns[found.value].hasUserMessage
                  && Prompts(turns, found.value, top) == m + 1)
  {
    if top > 0 {
      if top in turns && turns[top].hasUserMessage {
        if m == 0 {
          PromptsEmpty(turns, top, top - 1);
        } else {
          NthPromptFacts(turns, top - 1, m - 1);
        }
      } else {
        NthPromptFacts(turns, top - 1, m);
      }
    }
  }

  lemma PromptsEmpty(turns: map<nat, TurnRow>, from: nat, to: nat)
    requires to < from
    ensures Prompts(turns, from, to) == 0
  {
  }

  lemma {:induction false} NoPromptsNone(turns: map<nat, TurnRow>, from: nat, to: nat)
    requires Prompts(turns, 1, to) == 0 && from >= 1
    ensures Prompts(turns, from, to) == 0
  {
    if to > 0 && from <= to {
      NoPromptsNone(turns, from, to - 1);
    }
  }

  /** Every page is an interval of turns ending at its upper bound. With prompts in range it holds exactly
      min(limit, prompts in range) of them, the limit being the caller's when positive and else 30, and
      starts at a prompt or at turn 1; without any it holds
      min(limit, turns in range) turns. `more` holds exactly when a turn precedes the page. */
  lemma WindowHolds(t: Tables, n: nat, limit: int, before: int)
    requires Numbered(t.turns, n) && Top(t, n, before).Some?
    ensures var page, top := WindowOf(t, n, limit, before), Top(t, n, before).value;
            && page.last == top && 1 <= page.first && (top > 0 ==> page.first <= top)
            && (page.more <==> exists k :: k in t.turns && k < page.first)
            && (Prompts(t.turns, 1, top) > 0 ==>
                  && Prompts(t.turns, page.first, top) == Min(if limit > 0 then limit else 30, Prompts(t.turns, 1, top))
                  && (page.first == 1 || (page.first in t.turns && t.turns[page.first].hasUserMessage)))
            && (Prompts(t.turns, 1, top) == 0 ==>
                  top + 1 - page.first == Min(if limit > 0 then limit else 30, top))
  {
    var top, l := Top(t, n, before).value, Limit(limit);
    NthPromptFacts(t.turns, top, l - 1);
    assert StartOf(t.turns, top, l) > 1 ==> 1 in t.turns;
  }

  /** A cursor that is an event of the session bounds the page just below that event's turn; an index row
      never numbers it 0. */
  lemma CursorBound(rules: Rules, log: seq<EventRow>, id: nat)
    requires Ascending(log) && id in IndexOf(rules, log).eventTurns
    ensures var n, k := |TurnIDs(Tagged(rules, log))|, IndexOf(rules, log).eventTurns[id];
            1 <= k <= n && Top(IndexOf(rules, log), n, id) == Some(k - 1)
  {
    hide TurnIDs, Tagged, IndexOf, NewestBelow;
    EventTurnInRange(rules, log, id);
  }

  lemma EventTurnInRange(rules: Rules, log: seq<EventRow>, id: nat)
    requires Ascending(log) && id in IndexOf(rules, log).eventTurns
    ensures 0 < id && 1 <= IndexOf(rules, log).eventTurns[id] <= |TurnIDs(Tagged(rules, log))|
  {
    hide TurnIDs, Tagged, IndexOf;
    TurnNumbering(rules, log);
    EveryEventInItsTurn(rules, log);
    var e :| e in log && e.id == id;
    var i :| 0 <= i < |log| && log[i] == e;
  }

  lemma {:induction false} NewestBelowIsNewest(eventTurns: map<nat, nat>, id: nat)
    ensures NewestBelow(eventTurns, id).None? ==> forall x :: x in eventTurns ==> id <= x
    ensures NewestBelow(eventTurns, id).Some? ==>
              && NewestBelow(eventTurns, id).value in eventTurns && NewestBelow(eventTurns, id).value < id
              && forall x :: x in eventTurns && x < id ==> x <= NewestBelow(eventTurns, id).value
  {
    if id > 0 && id - 1 !in eventTurns {
      NewestBelowIsNewest(eventTurns, id - 1);
    }
  }

  /** The index holds exactly the log's events. */
  lemma IndexedEvents(rules: Rules, log: seq<EventRow>)
    requires Ascending(log)
    ensures forall e :: e in log ==> e.id in IndexOf(rules, log).eventTurns
    ensures forall x :: x in IndexOf(rules, log).eventTurns ==> exists e :: e in log && e.id == x
  {
    hide TurnIDs, Tagged, IndexOf;
    EveryEventInItsTurn(rules, log);
    forall e | e in log ensures e.id in IndexOf(rules, log).eventTurns {
      var i :| 0 <= i < |log| && log[i] == e;
    }
  }

  /** A reader's cursor that is no event of the session. */
  predicate IsNoEvent(log: seq<EventRow>, before: int) {
    before > 0 && forall e :: e in log ==> e.id != before
  }

  /** The newest event below a cursor. */
  predicate NewestBefore(log: seq<EventRow>, before: int, e: EventRow) {
    e in log && e.id < before && forall f :: f in log && f.id < before ==> f.id <= e.id
  }

  /** A cursor that is no event gives an empty range if and only if it is below every event, and else ends the
      range at the turn of the newest event below it. */
  lemma OtherCursor(rules: Rules, log: seq<EventRow>, before: int)
    requires Ascending(log) && IsNoEvent(log, before)
    ensures var n, t := |TurnIDs(Tagged(rules, log))|, IndexOf(rules, log);
            && (Top(t, n, before).None? <==> forall e :: e in log ==> before < e.id)
            && (forall e :: NewestBefore(log, before, e) ==>
                  e.id in t.eventTurns && Top(t, n, before) == Some(t.eventTurns[e.id]))
  {
    hide TurnIDs, Tagged, IndexOf, NewestBelow, Ascending;
    var eventTurns := IndexOf(rules, log).eventTurns;
    IndexedEvents(rules, log);
    NewestBelowIsNewest(eventTurns, before);
    NoEventTop(rules, log, before);
    var found := NewestBelow(eventTurns, before);
    if found.Some? {
      EventTurnInRange(rules, log, found.value);
      var e :| e in log && e.id == found.value;
      assert !(before < e.id);
    }
  }

  lemma NoEventTop(rules: Rules, log: seq<EventRow>, before: int)
    requires Ascending(log) && IsNoEvent(log, before)
    ensures var n, t := |TurnIDs(Tagged(rules, log))|, IndexOf(rules, log);
            var found := NewestBelow(t.eventTurns, before);
            && (Top(t, n, before).None? <==> found.None?)
            && (found.Some? ==> Top(t, n, before) == Some(t.eventTurns[found.value]))
  {
    hide TurnIDs, Tagged, IndexOf, NewestBelow;
    IndexedEvents(rules, log);
    var found := NewestBelow(IndexOf(rules, log).eventTurns, before);
    if found.Some? {
      EventTurnInRange(rules, log, found.value);
    }
  }

  /** No cursor bounds nothing. */
  lemma NoCursor(t: Tables, n: nat, before: int)
    requires before <= 0
    ensures Top(t, n, before) == Some(n)
  {
  }

  // ---------------------------------------------------------------- paging back while the session grows

  /** The page read when the session's log is `log`. */
  function PageOf(rules: Rules, log: seq<EventRow>, limit: int, before: int): Page {
    WindowOf(IndexOf(rules, log), |TurnIDs(Tagged(rules, log))|, limit, before)
  }

  /** A reader's walk back: the first page without a cursor, each next one before an event of the oldest turn
      of the page before it, every page non-empty, the session free to grow between reads. */
  ghost predicate Walk(rules: Rules, logs: seq<seq<EventRow>>, limits: seq<int>, cursors: seq<nat>, pages: seq<Page>) {
    && |logs| == |limits| == |pages| == |cursors| && |pages| > 0
    && (forall j :: 0 <= j < |logs| - 1 ==> logs[j] <= logs[j + 1])
    && (forall j :: 0 <= j < |pages| ==> Read(rules, logs[j], limits[j], Before(cursors, j), pages[j], cursors[j]))
  }

  /** The cursor page j is read with: none for the first page. */
  function Before(cursors: seq<nat>, j: nat): nat
    requires j <= |cursors|
  {
    if j == 0 then 0 else cursors[j - 1]
  }

  /** A page read from a log, not empty, and an event of its oldest turn. */
  ghost predicate Read(rules: Rules, log: seq<EventRow>, limit: int, before: int, page: Page, cursor: nat) {
    && Ascending(log) && page == PageOf(rules, log, limit, before) && page.first <= page.last
    && cursor in IndexOf(rules, log).eventTurns && IndexOf(rules, log).eventTurns[cursor] == page.first
  }

  lemma {:induction false} EventTurnsGrow(rules: Rules, log: seq<EventRow>, longer: seq<EventRow>, id: nat)
    requires Ascending(longer) && log <= longer && id in IndexOf(rules, log).eventTurns
    ensures id in IndexOf(rules, longer).eventTurns && IndexOf(rules, longer).eventTurns[id] == IndexOf(rules, log).eventTurns[id]
    decreases |longer|
  {
    hide TurnIDs, SeqOf, EventTurnsOf, TurnsOf, CandidatesOf;
    if |log| < |longer| {
      var init, e := longer[..|longer| - 1], longer[|longer| - 1];
      assert longer == init + [e];
      AscendingPrefix(longer, |init|);
      EventTurnsGrow(rules, log, init, id);
      TaggedSnoc(rules, init, e);
      EventTurnsSnoc(Tagged(rules, init), TurnEvent(LastTurnID(rules, longer), e));
      IndexedBelow(rules, init, e, id);
    } else {
      assert log == longer;
    }
  }

  lemma IndexedBelow(rules: Rules, log: seq<EventRow>, e: EventRow, id: nat)
    requires Ascending(log + [e]) && id in IndexOf(rules, log).eventTurns
    ensures id < e.id
  {
    hide EventTurnsOf, TurnsOf, CandidatesOf;
    EventTurnsKeys(Tagged(rules, log));
    IdsBelow(rules, log, e);
  }

  lemma PageShape(rules: Rules, log: seq<EventRow>, limit: int, before: int)
    requires Ascending(log)
    ensures var page, n := PageOf(rules, log, limit, before), |TurnIDs(Tagged(rules, log))|;
            && 1 <= page.first && (page.more <==> page.first > 1 && Top(IndexOf(rules, log), n, before).Some?)
            && (before <= 0 ==> page.last == n)
  {
    hide TurnIDs, Tagged, EventTurnsOf, CandidatesOf, TurnsOf;
    var t, n := IndexOf(rules, log), |TurnIDs(Tagged(rules, log))|;
    TurnNumbering(rules, log);
    if Top(t, n, before).Some? {
      WindowHolds(t, n, limit, before);
    }
  }

  /** Each page of a walk ends where the one before it began. */
  lemma PagesAreConsecutive(rules: Rules, logs: seq<seq<EventRow>>, limits: seq<int>, cursors: seq<nat>, pages: seq<Page>, j: nat)
    requires Walk(rules, logs, limits, cursors, pages) && j + 1 < |pages|
    ensures pages[j + 1].last == pages[j].first - 1 && pages[j].more
  {
    hide TurnIDs, Tagged, EventTurnsOf, CandidatesOf, TurnsOf, StartOf;
    EventTurnsGrow(rules, logs[j], logs[j + 1], cursors[j]);
    CursorBound(rules, logs[j + 1], cursors[j]);
    PageShape(rules, logs[j + 1], limits[j + 1], cursors[j]);
    PageShape(rules, logs[j], limits[j], Before(cursors, j));
  }

  /** Pages that descend without a gap. */
  ghost predicate Stairs(pages: seq<Page>) {
    && |pages| > 0
    && (forall j :: 0 <= j < |pages| ==> 1 <= pages[j].first <= pages[j].last)
    && (forall j :: 0 <= j < |pages| - 1 ==> pages[j].more && pages[j + 1].last == pages[j].first - 1)
  }

  lemma {:induction false} StairsFall(pages: seq<Page>, i: nat, j: nat)
    requires Stairs(pages) && i < j < |pages|
    ensures pages[j].last < pages[i].first && pages[j].first + (j - i) <= pages[i].first
    decreases j
  {
    if i < j - 1 {
      StairsFall(pages, i, j - 1);
    }
  }

  lemma {:induction false} StairsCover(pages: seq<Page>, j: nat, k: nat)
    requires Stairs(pages) && j < |pages| && pages[|pages| - 1].first <= k <= pages[j].last
    ensures exists i :: j <= i < |pages| && pages[i].first <= k <= pages[i].last
    decreases |pages| - j
  {
    if k < pages[j].first {
      StairsCover(pages, j + 1, k);
    }
  }

  /** Paging back serves disjoint, consecutive intervals from the newest turn down; no page but the last
      says there is nothing more; the walk ends, since its start falls at every page. */
  lemma WalkIsDisjointAndEnds(rules: Rules, logs: seq<seq<EventRow>>, limits: seq<int>, cursors: seq<nat>, pages: seq<Page>)
    requires Walk(rules, logs, limits, cursors, pages)
    ensures Stairs(pages) && pages[0].last == |TurnIDs(Tagged(rules, logs[0]))|
    ensures |pages| <= |TurnIDs(Tagged(rules, logs[0]))|
    ensures !pages[|pages| - 1].more ==> pages[|pages| - 1].first == 1
  {
    hide TurnIDs, Tagged, IndexOf, WindowOf;
    forall j | 0 <= j < |pages| ensures 1 <= pages[j].first && (pages[j].first > 1 && j == 0 ==> pages[j].more) {
      PageShape(rules, logs[j], limits[j], Before(cursors, j));
    }
    forall j | 0 <= j < |pages| - 1 ensures pages[j].more && pages[j + 1].last == pages[j].first - 1 {
      PagesAreConsecutive(rules, logs, limits, cursors, pages, j);
    }
    PageShape(rules, logs[0], limits[0], 0);
    if |pages| > 1 {
      StairsFall(pages, 0, |pages| - 1);
    }
    if !pages[|pages| - 1].more {
      LastPage(rules, logs, limits, cursors, pages, |pages| - 1);
    }
  }

  lemma LastPage(rules: Rules, logs: seq<seq<EventRow>>, limits: seq<int>, cursors: seq<nat>, pages: seq<Page>, j: nat)
    requires Walk(rules, logs, limits, cursors, pages) && j < |pages| && !pages[j].more
    ensures pages[j].first == 1
  {
    hide TurnIDs, Tagged, IndexOf, StartOf, Top;
    PageShape(rules, logs[j], limits[j], Before(cursors, j));
  }

  /** A page holds a turn. */
  predicate Serves(page: Page, k: nat) {
    page.first <= k <= page.last
  }

  /** And once a page reports nothing more, every turn the session had at the first read was served, on
      exactly one page. */
  lemma EveryTurnServedOnce(rules: Rules, logs: seq<seq<EventRow>>, limits: seq<int>, cursors: seq<nat>, pages: seq<Page>, k: nat)
    requires Walk(rules, logs, limits, cursors, pages) && !pages[|pages| - 1].more
    requires 1 <= k <= |TurnIDs(Tagged(rules, logs[0]))|
    ensures exists j :: 0 <= j < |pages| && Serves(pages[j], k)
    ensures forall i, j :: 0 <= i < |pages| && 0 <= j < |pages| && Serves(pages[i], k) && Serves(pages[j], k) ==> i == j
  {
    hide Walk, TurnIDs, Tagged;
    WalkIsDisjointAndEnds(rules, logs, limits, cursors, pages);
    StairsCover(pages, 0, k);
    forall i, j | 0 <= i < j < |pages| ensures !(Serves(pages[i], k) && Serves(pages[j], k)) {
      StairsFall(pages, i, j);
    }
  }

  // ---------------------------------------------------------------- a walk can always go on

  /** Every turn has an event a reader can page back by. */
  lemma TurnHasCursor(rules: Rules, log: seq<EventRow>, k: nat)
    requires Ascending(log) && 1 <= k <= |TurnIDs(Tagged(rules, log))|
    ensures exists id :: id in IndexOf(rules, log).eventTurns && IndexOf(rules, log).eventTurns[id] == k
  {
    hide TurnIDs, Tagged, Keep, TurnsOf, EventTurnsOf, CandidatesOf;
    var rows := Tagged(rules, log);
    TaggedRising(rules, log);
    FirstIsRow(rows, k);
    var b := EventsOfTurn(rows, k)[0];
    EventTurnsSelect(rows, k, b);
    assert IndexOf(rules, log).eventTurns[b.row.id] == k;
  }

  /** When a page says there is more, the next read - later, with any limit, before any event of the page's
      oldest turn - is not empty, and ends where the page began. */
  lemma MoreLeadsToAPage(rules: Rules, log: seq<EventRow>, limit: int, before: int, longer: seq<EventRow>, limit': int, cursor: nat)
    requires Ascending(log) && Ascending(longer) && log <= longer && PageOf(rules, log, limit, before).more
    requires cursor in IndexOf(rules, log).eventTurns && IndexOf(rules, log).eventTurns[cursor] == PageOf(rules, log, limit, before).first
    ensures var page, next := PageOf(rules, log, limit, before), PageOf(rules, longer, limit', cursor);
            1 <= next.first <= next.last == page.first - 1
  {
    hide TurnIDs, Tagged, EventTurnsOf, CandidatesOf, TurnsOf, StartOf;
    PageShape(rules, log, limit, before);
    EventTurnsGrow(rules, log, longer, cursor);
    CursorBound(rules, longer, cursor);
    PageShape(rules, longer, limit', cursor);
    TurnNumbering(rules, longer);
    WindowHolds(IndexOf(rules, longer), |TurnIDs(Tagged(rules, longer))|, limit', cursor);
  }

  /** The first page of a session with events is not empty. */
  lemma FirstPageIsNotEmpty(rules: Rules, log: seq<EventRow>, limit: int)
    requires Ascending(log) && log != []
    ensures var page := PageOf(rules, log, limit, 0);
            1 <= page.first <= page.last == |TurnIDs(Tagged(rules, log))|
  {
    hide TurnIDs, Tagged, EventTurnsOf, CandidatesOf, TurnsOf, StartOf;
    PageShape(rules, log, limit, 0);
    TurnNumbering(rules, log);
    SomeTurn(rules, log);
    WindowHolds(IndexOf(rules, log), |TurnIDs(Tagged(rules, log))|, limit, 0);
  }

  lemma SomeTurn(rules: Rules, log: seq<EventRow>)
    requires log != []
    ensures |TurnIDs(Tagged(rules, log))| > 0
  {
    TurnIDsMembers(Tagged(rules, log));
    assert Tagged(rules, log)[0] in Tagged(rules, log);
  }

  ghost predicate CompleteWalk(rules: Rules, logs: seq<seq<EventRow>>, limits: seq<int>, cursors: seq<nat>, pages: seq<Page>) {
    Walk(rules, logs, limits, cursors, pages) && !pages[|pages| - 1].more
  }

  /** One more page, from a session that may have grown. */
  lemma OnePageMore(rules: Rules, logs: seq<seq<EventRow>>, limits: seq<int>, cursors: seq<nat>, pages: seq<Page>,
                    log: seq<EventRow>, limit: int)
    returns (cursor: nat, page: Page)
    requires Walk(rules, logs, limits, cursors, pages) && pages[|pages| - 1].more
    requires Ascending(log) && logs[|logs| - 1] <= log
    ensures Walk(rules, logs + [log], limits + [limit], cursors + [cursor], pages + [page])
    ensures page.first < pages[|pages| - 1].first
  {
    hide Walk, Read, Ascending, PageOf;
    LastRead(rules, logs, limits, cursors, pages);
    var n := |pages| - 1;
    cursor, page := NextRead(rules, logs[n], limits[n], Before(cursors, n), pages[n], cursors[n], log, limit);
    WalkGrows(rules, logs, limits, cursors, pages, log, limit, cursor, page);
  }

  lemma LastRead(rules: Rules, logs: seq<seq<EventRow>>, limits: seq<int>, cursors: seq<nat>, pages: seq<Page>)
    requires Walk(rules, logs, limits, cursors, pages)
    ensures |logs| == |limits| == |pages| == |cursors| > 0
    ensures var n := |pages| - 1; Read(rules, logs[n], limits[n], Before(cursors, n), pages[n], cursors[n])
  {
    hide Read;
    var n := |pages| - 1;
    assert Read(rules, logs[n], limits[n], Before(cursors, n), pages[n], cursors[n]);
  }

  /** The read after a page that says there is more. */
  lemma NextRead(rules: Rules, log: seq<EventRow>, limit: int, before: nat, page: Page, cursor: nat,
                 longer: seq<EventRow>, limit': int) returns (cursor': nat, page': Page)
    requires Read(rules, log, limit, before, page, cursor) && page.more && Ascending(longer) && log <= longer
    ensures Read(rules, longer, limit', cursor, page', cursor') && page'.first < page.first
  {
    hide TurnIDs, Tagged, IndexOf, PageOf, Ascending;
    page' := PageOf(rules, longer, limit', cursor);
    MoreLeadsToAPage(rules, log, limit, before, longer, limit', cursor);
    PageInLog(rules, longer, limit', cursor);
    TurnHasCursor(rules, longer, page'.first);
    cursor' :| cursor' in IndexOf(rules, longer).eventTurns && IndexOf(rules, longer).eventTurns[cursor'] == page'.first;
  }

  lemma WalkGrows(rules: Rules, logs: seq<seq<EventRow>>, limits: seq<int>, cursors: seq<nat>, pages: seq<Page>,
                  log: seq<EventRow>, limit: int, cursor: nat, page: Page)
    requires Walk(rules, logs, limits, cursors, pages) && Ascending(log) && logs[|logs| - 1] <= log
    requires Read(rules, log, limit, cursors[|cursors| - 1], page, cursor)
    ensures Walk(rules, logs + [log], limits + [limit], cursors + [cursor], pages + [page])
  {
    hide Read, Ascending;
    var logs', limits', cursors', pages' := logs + [log], limits + [limit], cursors + [cursor], pages + [page];
    forall j | 0 <= j < |pages'| ensures Read(rules, logs'[j], limits'[j], Before(cursors', j), pages'[j], cursors'[j]) {
      if j < |pages| {
        ReadKept(rules, logs, limits, cursors, pages, j, log, limit, cursor, page);
      }
    }
    LogsGrow(logs, log);
  }

  lemma ReadKept(rules: Rules, logs: seq<seq<EventRow>>, limits: seq<int>, cursors: seq<nat>, pages: seq<Page>, j: nat,
                 log: seq<EventRow>, limit: int, cursor: nat, page: Page)
    requires |logs| == |limits| == |pages| == |cursors| && j < |pages|
    requires Read(rules, logs[j], limits[j], Before(cursors, j), pages[j], cursors[j])
    ensures Read(rules, (logs + [log])[j], (limits + [limit])[j], Before(cursors + [cursor], j), (pages + [page])[j],
                 (cursors + [cursor])[j])
  {
    hide Read;
  }

  lemma LogsGrow(logs: seq<seq<EventRow>>, log: seq<EventRow>)
    requires |logs| > 0 && logs[|logs| - 1] <= log
    requires forall j :: 0 <= j < |logs| - 1 ==> logs[j] <= logs[j + 1]
    ensures forall j :: 0 <= j < |logs + [log]| - 1 ==> (logs + [log])[j] <= (logs + [log])[j + 1]
  {
    forall j | 0 <= j < |logs| ensures (logs + [log])[j] <= (logs + [log])[j + 1] {
      if j < |logs| - 1 {
        assert logs[j] <= logs[j + 1];
      }
    }
  }

  lemma PageInLog(rules: Rules, log: seq<EventRow>, limit: int, before: int)
    ensures PageOf(rules, log, limit, before).last <= |TurnIDs(Tagged(rules, log))|
  {
    hide TurnIDs, Tagged, IndexOf;
  }

  /** Every walk can be finished, however the session has grown by then. */
  lemma WalkCanFinish(rules: Rules, logs: seq<seq<EventRow>>, limits: seq<int>, cursors: seq<nat>, pages: seq<Page>,
                      log: seq<EventRow>, limit: int)
    requires Walk(rules, logs, limits, cursors, pages) && Ascending(log) && logs[|logs| - 1] <= log
    ensures exists logs', limits', cursors', pages' ::
              CompleteWalk(rules, logs', limits', cursors', pages') && logs <= logs' && pages <= pages'
    decreases pages[|pages| - 1].first
  {
    hide Walk;
    LastOf(rules, logs, limits, cursors, pages);
    if pages[|pages| - 1].more {
      var cursor, page := OnePageMore(rules, logs, limits, cursors, pages, log, limit);
      WalkCanFinish(rules, logs + [log], limits + [limit], cursors + [cursor], pages + [page], log, limit);
      var logs', limits', cursors', pages' :| CompleteWalk(rules, logs', limits', cursors', pages')
                                             && logs + [log] <= logs' && pages + [page] <= pages';
      assert logs <= logs + [log] && pages <= pages + [page];
    } else {
      assert CompleteWalk(rules, logs, limits, cursors, pages);
    }
  }

  lemma LastOf(rules: Rules, logs: seq<seq<EventRow>>, limits: seq<int>, cursors: seq<nat>, pages: seq<Page>)
    requires Walk(rules, logs, limits, cursors, pages)
    ensures |logs| == |pages| > 0
  {
  }

  /** So from every session with events, under any limit, a complete walk exists; it serves each turn of the
      first read on exactly one page. */
  lemma CompleteWalkExists(rules: Rules, log: seq<EventRow>, limit: int)
    requires Ascending(log) && log != []
    ensures exists logs, limits, cursors, pages :: CompleteWalk(rules, logs, limits, cursors, pages) && [log] <= logs
  {
    hide Walk, IndexOf, WindowOf, TurnIDs, Tagged;
    var page := PageOf(rules, log, limit, 0);
    FirstPageIsNotEmpty(rules, log, limit);
    TurnHasCursor(rules, log, page.first);
    var cursor :| cursor in IndexOf(rules, log).eventTurns && IndexOf(rules, log).eventTurns[cursor] == page.first;
    OneStepWalk(rules, log, limit, cursor);
    WalkCanFinish(rules, [log], [limit], [cursor], [page], log, limit);
    var logs, limits, cursors, pages :| CompleteWalk(rules, logs, limits, cursors, pages) && [log] <= logs && [page] <= pages;
  }

  lemma OneStepWalk(rules: Rules, log: seq<EventRow>, limit: int, cursor: nat)
    requires Ascending(log) && PageOf(rules, log, limit, 0).first <= PageOf(rules, log, limit, 0).last
    requires cursor in IndexOf(rules, log).eventTurns && IndexOf(rules, log).eventTurns[cursor] == PageOf(rules, log, limit, 0).first
    ensures Walk(rules, [log], [limit], [cursor], [PageOf(rules, log, limit, 0)])
  {
    hide IndexOf, WindowOf, TurnIDs, Tagged;
  }
}
