/** The paging loop: it chases start tokens from page to page. The loop is given as a transition
    function first, so that runs that never end can be talked about. */
module Paging {
  import opened Calls

  /** `next` is what the listing returns as the address of the next page; "" when there is none. */
  datatype Page<T> = Page(items: seq<T>, next: string)

  /** Pages by start token ("" asks for the first page), and which calls fail. */
  datatype Server<T> = Server(pages: map<string, Page<T>>, faults: set<nat>)

  datatype State<T> =
    | Running(start: string, acc: seq<T>, calls: nat)
    | Halted(failed: bool, acc: seq<T>)

  /** The start token of a URL: None when the text is not a URL, "" when it has no such parameter. */
  type StartToken = string -> Option<string>

  function Step<T>(server: Server<T>, token: StartToken, s: State<T>): State<T> {
    if s.Halted? then s
    else if s.calls in server.faults || s.start !in server.pages then Halted(true, s.acc)
    else
      var page := server.pages[s.start];
      var acc := s.acc + page.items;
      if page.next == "" then Halted(false, acc)
      else
        match token(page.next)
        case None => Halted(true, acc)
        case Some(start) => Running(start, acc, s.calls + 1)
  }

  function After<T>(server: Server<T>, token: StartToken, n: nat): State<T> {
    if n == 0 then Running("", [], 0) else Step(server, token, After(server, token, n - 1))
  }

  ghost predicate Terminates<T>(server: Server<T>, token: StartToken) {
    exists n: nat :: After(server, token, n).Halted?
  }

  /******* Termination, exactly *******/

  lemma {:induction false} HaltedStays<T>(server: Server<T>, token: StartToken, m: nat, n: nat)
    requires m <= n && After(server, token, m).Halted?
    ensures After(server, token, n) == After(server, token, m)
    decreases n
  {
    if m < n {
      HaltedStays(server, token, m, n - 1);
    }
  }

  lemma RunningBefore<T>(server: Server<T>, token: StartToken, m: nat, n: nat)
    requires m <= n && After(server, token, n).Running?
    ensures After(server, token, m).Running?
  {
  }

  lemma {:induction false} CallsCount<T>(server: Server<T>, token: StartToken, n: nat)
    requires After(server, token, n).Running?
    ensures After(server, token, n).calls == n
  {
    if n > 0 {
      CallsCount(server, token, n - 1);
    }
  }

  /** The loop is still running before its call number `i`, which asks for `start`. */
  ghost predicate Asks<T>(server: Server<T>, token: StartToken, i: nat, start: string) {
    After(server, token, i).Running? && After(server, token, i).start == start
  }

  /** No two calls ask for the same token. */
  ghost predicate NeverRepeats<T>(server: Server<T>, token: StartToken) {
    forall i: nat, j: nat, t :: Asks(server, token, i, t) && Asks(server, token, j, t) ==> i == j
  }

  ghost function Asked<T>(server: Server<T>, token: StartToken, n: nat): set<string> {
    set t | t in server.pages && exists i: nat :: i < n && Asks(server, token, i, t)
  }

  lemma AskedNext<T>(server: Server<T>, token: StartToken, n: nat)
    requires NeverRepeats(server, token) && After(server, token, n).Running? && After(server, token, n + 1).Running?
    ensures After(server, token, n).start !in Asked(server, token, n)
    ensures Asked(server, token, n + 1) == Asked(server, token, n) + {After(server, token, n).start}
  {
    var t := After(server, token, n).start;
    assert Asks(server, token, n, t);
    forall u | u in Asked(server, token, n + 1) ensures u in Asked(server, token, n) + {t} {
      var i: nat :| i < n + 1 && Asks(server, token, i, u);
      assert i == n ==> u == t;
    }
  }

  lemma {:induction false} AskedSize<T>(server: Server<T>, token: StartToken, n: nat)
    requires NeverRepeats(server, token) && After(server, token, n).Running?
    ensures |Asked(server, token, n)| == n
  {
    if n == 0 {
      assert Asked(server, token, 0) == {};
    } else {
      RunningBefore(server, token, n - 1, n);
      AskedSize(server, token, n - 1);
      AskedNext(server, token, n - 1);
    }
  }

  /** Without a repeated token the loop makes at most one call per page, plus one. */
  lemma HaltsWithinPages<T>(server: Server<T>, token: StartToken)
    requires NeverRepeats(server, token)
    ensures After(server, token, |server.pages| + 1).Halted?
  {
    var n := |server.pages| + 1;
    if After(server, token, n).Running? {
      AskedSize(server, token, n);
      SubsetSize(Asked(server, token, n), server.pages.Keys);
    }
  }

  lemma {:induction false} SubsetSize<A>(a: set<A>, b: set<A>)
    requires a <= b
    ensures |a| <= |b|
  {
    if a != {} {
      var x :| x in a;
      SubsetSize(a - {x}, b - {x});
    }
  }

  // From two calls with the same token on, the loop does the same things twice.
  lemma {:induction false} Lockstep<T>(server: Server<T>, token: StartToken, i: nat, j: nat, k: nat)
    requires server.faults == {}
    requires After(server, token, i).Running? && After(server, token, j).Running?
    requires After(server, token, i).start == After(server, token, j).start
    ensures After(server, token, i + k).Running? <==> After(server, token, j + k).Running?
    ensures After(server, token, i + k).Running? ==>
              After(server, token, i + k).start == After(server, token, j + k).start
  {
    if k > 0 {
      Lockstep(server, token, i, j, k - 1);
    }
  }

  lemma {:induction false} RepeatRunsForever<T>(server: Server<T>, token: StartToken, i: nat, j: nat, n: nat)
    requires server.faults == {} && i < j
    requires After(server, token, i).Running? && After(server, token, j).Running?
    requires After(server, token, i).start == After(server, token, j).start
    ensures After(server, token, n).Running?
  {
    if n <= j {
      RunningBefore(server, token, n, j);
    } else {
      RepeatRunsForever(server, token, i, j, i + (n - j));
      Lockstep(server, token, i, j, n - j);
    }
  }

  lemma FaultHalts<T>(server: Server<T>, token: StartToken, f: nat)
    requires f in server.faults
    ensures After(server, token, f + 1).Halted?
  {
    if After(server, token, f).Running? {
      CallsCount(server, token, f);
    }
  }

  /** The loop ends exactly when a call fails or no token comes up twice. */
  lemma TerminatesExactly<T>(server: Server<T>, token: StartToken)
    ensures Terminates(server, token) <==> server.faults != {} || NeverRepeats(server, token)
  {
    if server.faults != {} {
      var f :| f in server.faults;
      FaultHalts(server, token, f);
    } else if NeverRepeats(server, token) {
      HaltsWithinPages(server, token);
    } else {
      var i: nat, j: nat, t :| Asks(server, token, i, t) && Asks(server, token, j, t) && i != j;
      forall n: nat ensures After(server, token, n).Running? {
        RepeatRunsForever(server, token, if i < j then i else j, if i < j then j else i, n);
      }
    }
  }

  /******* Refinement of concatenation *******/

  /** `toks` are the tokens of all pages, first to last, each page pointing at the next. */
  ghost predicate IsChain<T>(server: Server<T>, token: StartToken, toks: seq<string>) {
    && IsPath(server, token, toks)
    && server.pages[toks[|toks| - 1]].next == ""
  }

  ghost predicate IsPath<T>(server: Server<T>, token: StartToken, toks: seq<string>) {
    && toks != [] && toks[0] == ""
    && (forall i :: 0 <= i < |toks| ==> toks[i] in server.pages)
    && (forall i :: 0 <= i < |toks| - 1 ==> Link(server, token, toks[i], toks[i + 1]))
  }

  ghost predicate Link<T>(server: Server<T>, token: StartToken, from: string, to: string)
    requires from in server.pages
  {
    server.pages[from].next != "" && token(server.pages[from].next) == Some(to)
  }

  ghost function Concat<T>(server: Server<T>, toks: seq<string>): seq<T>
    requires forall i :: 0 <= i < |toks| ==> toks[i] in server.pages
  {
    if toks == [] then []
    else Concat(server, toks[..|toks| - 1]) + server.pages[toks[|toks| - 1]].items
  }

  lemma {:induction false} AlongPath<T>(server: Server<T>, token: StartToken, toks: seq<string>)
    requires IsPath(server, token, toks)
    requires forall i: nat :: i < |toks| - 1 ==> i !in server.faults
    ensures var n := |toks| - 1;
            After(server, token, n) == Running(toks[n], Concat(server, toks[..n]), n)
  {
    var n := |toks| - 1;
    if n > 0 {
      assert IsPath(server, token, toks[..n]);
      AlongPath(server, token, toks[..n]);
      assert toks[..n][..n - 1] == toks[..n - 1];
      assert Concat(server, toks[..n]) == Concat(server, toks[..n - 1]) + server.pages[toks[n - 1]].items;
    }
  }

  lemma {:induction false} PathOf<T>(server: Server<T>, token: StartToken, n: nat) returns (toks: seq<string>)
    requires After(server, token, n).Running? && After(server, token, n).start in server.pages
    ensures IsPath(server, token, toks) && |toks| == n + 1 && toks[n] == After(server, token, n).start
    ensures forall i: nat :: i < n ==> i !in server.faults
  {
    if n == 0 {
      toks := [""];
    } else {
      RunningBefore(server, token, n - 1, n);
      CallsCount(server, token, n - 1);
      var before := PathOf(server, token, n - 1);
      toks := before + [After(server, token, n).start];
      assert Link(server, token, toks[n - 1], toks[n]);
      forall i | 0 <= i < n - 1 ensures Link(server, token, toks[i], toks[i + 1]) {
        assert Link(server, token, before[i], before[i + 1]);
      }
    }
  }

  /** The loop succeeds with `acc` after `n` calls exactly when the pages form a chain of `n` pages
      none of whose calls fails, and `acc` is the concatenation of those pages in order. */
  lemma PagingConcatenates<T>(server: Server<T>, token: StartToken, n: nat, acc: seq<T>)
    ensures After(server, token, n).Running? && After(server, token, n + 1) == Halted(false, acc)
            <==> exists toks ::
                   && IsChain(server, token, toks) && |toks| == n + 1
                   && (forall i: nat :: i <= n ==> i !in server.faults)
                   && acc == Concat(server, toks)
  {
    if After(server, token, n).Running? && After(server, token, n + 1) == Halted(false, acc) {
      CallsCount(server, token, n);
      var toks := PathOf(server, token, n);
      AlongPath(server, token, toks);
      assert IsChain(server, token, toks) && acc == Concat(server, toks);
    }
    forall toks | IsChain(server, token, toks) && |toks| == n + 1 && (forall i: nat :: i <= n ==> i !in server.faults)
      ensures After(server, token, n).Running? && After(server, token, n + 1) == Halted(false, Concat(server, toks))
    {
      AlongPath(server, token, toks);
    }
  }

  /******* Listings that hand back a bare token instead of a URL *******/

  ghost function Copies<T>(items: seq<T>, n: nat): seq<T> {
    if n == 0 then [] else Copies(items, n - 1) + items
  }

  /** A next address without a start parameter sends the loop back to the first page, for ever: it
      never stops and collects the first page over and over. */
  lemma {:induction false} BareTokenRestarts<T>(server: Server<T>, token: StartToken, n: nat)
    requires server.faults == {} && "" in server.pages
    requires server.pages[""].next != "" && token(server.pages[""].next) == Some("")
    ensures After(server, token, n) == Running("", Copies(server.pages[""].items, n), n)
  {
    if n > 0 {
      BareTokenRestarts(server, token, n - 1);
    }
  }

  /** With such addresses throughout, a listing that does not fail ends exactly when its first page
      is also its last. */
  lemma BareTokenTerminatesExactly<T>(server: Server<T>, token: StartToken)
    requires server.faults == {} && "" in server.pages
    requires forall t :: t in server.pages && server.pages[t].next != "" ==> token(server.pages[t].next) == Some("")
    ensures Terminates(server, token) <==> server.pages[""].next == ""
  {
    if server.pages[""].next == "" {
      assert After(server, token, 1).Halted?;
    } else {
      forall n: nat ensures After(server, token, n).Running? {
        BareTokenRestarts(server, token, n);
      }
    }
  }

  /******* The loop itself *******/

  /** The closure that fetches one page and appends its items to a captured list. */
  class Lister<T> {
    const server: Server<T>
    var acc: seq<T>
    var calls: nat

    constructor (server: Server<T>)
      ensures this.server == server && acc == [] && calls == 0
    {
      this.server, acc, calls := server, [], 0;
    }

    method Fetch(start: string) returns (isDone: bool, next: string, failed: bool)
      modifies this
      ensures calls == old(calls) + 1
      ensures failed == (old(calls) in server.faults || start !in server.pages)
      ensures !failed ==> acc == old(acc) + server.pages[start].items
      ensures failed ==> acc == old(acc)
      ensures !failed ==> next == server.pages[start].next && isDone == (next == "")
    {
      failed := calls in server.faults || start !in server.pages;
      calls := calls + 1;
      isDone, next := false, "";
      if !failed {
        acc := acc + server.pages[start].items;
        next := server.pages[start].next;
        isDone := next == "";
      }
    }
  }

  /** The loop, watched for any number of rounds: it has ended exactly when the transition system has
      halted, and then in the same state; otherwise it is still running, with the same items collected. */
  method PagingHelper<T>(lister: Lister<T>, token: StartToken, rounds: nat) returns (halted: bool, failed: bool)
    requires lister.acc == [] && lister.calls == 0
    modifies lister
    ensures halted ==>
              && 0 < lister.calls <= rounds && After(lister.server, token, lister.calls - 1).Running?
              && After(lister.server, token, lister.calls) == Halted(failed, lister.acc)
              && After(lister.server, token, rounds) == Halted(failed, lister.acc)
    ensures !halted ==>
              && After(lister.server, token, rounds).Running? && lister.calls == rounds
              && After(lister.server, token, rounds).acc == lister.acc
  {
    var start := "";
    halted, failed := false, false;
    while lister.calls < rounds && !halted
      invariant lister.calls <= rounds
      invariant !halted ==>
                  !failed && After(lister.server, token, lister.calls) == Running(start, lister.acc, lister.calls)
      invariant halted ==>
                  && 0 < lister.calls && After(lister.server, token, lister.calls - 1).Running?
                  && After(lister.server, token, lister.calls) == Halted(failed, lister.acc)
      decreases rounds - lister.calls
    {
      var isDone, next, e := lister.Fetch(start);
      if e {
        halted, failed := true, true;
      } else if isDone || next == "" {
        halted := true;
      } else {
        var t := token(next);
        if t.None? {
          halted, failed := true, true;
        } else {
          start := t.value;
        }
      }
    }
    if halted {
      HaltedStays(lister.server, token, lister.calls, rounds);
    }
  }
}
