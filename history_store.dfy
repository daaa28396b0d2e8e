/** The per-identity conversation histories both handlers keep in their
    userChatHistories map, and the two ways they evict old turns. */
module HistoryStore {
  import opened Turns

  /** MAX_HISTORY_SIZE in both handlers. */
  const MaxHistorySize := 50

  type Histories = map<string, seq<Turn>>

  /** Every history in the store is within the bound. */
  ghost predicate Bounded(m: Histories)
  {
    forall id :: id in m ==> |m[id]| <= MaxHistorySize
  }

  /** putIfAbsent (and the map effect of computeIfAbsent): the entry for
      `id` becomes `initial` only when there was none; an existing history
      and every other key are left as they were. */
  function PutIfAbsent(m: Histories, id: string, initial: seq<Turn>): (r: Histories)
    ensures id in m ==> r == m
    ensures r == m[id := if id in m then m[id] else initial]
  {
    if id in m then m else m[id := initial]
  }

  /** remove: the key is gone and every other key keeps its history. */
  function Remove(m: Histories, id: string): (r: Histories)
    ensures id !in r
    ensures forall k :: k != id ==> (k in r <==> k in m)
    ensures forall k :: k in r ==> r[k] == m[k]
  {
    m - {id}
  }

  /** What `while (history.size() > MAX_HISTORY_SIZE) history.remove(0)`
      leaves of `h`: the most recent MaxHistorySize turns, in order. */
  function Retained(h: seq<Turn>): (r: seq<Turn>)
    ensures |r| == if |h| <= MaxHistorySize then |h| else MaxHistorySize
    ensures r == h[|h| - |r|..]
    decreases |h|
  {
    if |h| <= MaxHistorySize then h else Retained(h[1..])
  }

  /** The eviction loop of the streaming handler, on the history list. */
  method EvictOldest(h: seq<Turn>) returns (r: seq<Turn>)
    ensures r == Retained(h)
  {
    r := h;
    while |r| > MaxHistorySize
      invariant Retained(r) == Retained(h)
    {
      r := r[1..];
    }
  }

  /** The plain handler's commit: append, then remove the oldest turn once
      if the history has grown past the bound. */
  function CommitOnce(h: seq<Turn>, t: Turn): (r: seq<Turn>)
    ensures |r| > 0 && r[|r| - 1] == t
    ensures |r| == if |h| < MaxHistorySize then |h| + 1 else |h|
    ensures r == (h + [t])[|h| + 1 - |r|..]
  {
    var appended := h + [t];
    if |appended| > MaxHistorySize then appended[1..] else appended
  }

  /** Appending one turn to a retained history and evicting again is the
      same as evicting the whole appended history. */
  lemma RetainedAppend(h: seq<Turn>, t: Turn)
    ensures Retained(Retained(h) + [t]) == Retained(h + [t])
  {
    if |h| >= MaxHistorySize {
      var kept := Retained(h);
      assert kept == h[|h| - MaxHistorySize..];
      var x := kept + [t];
      assert Retained(x) == x[1..];
      var y := h + [t];
      var r := Retained(y);
      assert r == y[|y| - MaxHistorySize..];
      assert x[1..] == y[|y| - MaxHistorySize..];
    }
  }

  /** The history after committing `ts` one by one onto `h`, evicting with
      the loop after each commit. */
  function CommitAll(h: seq<Turn>, ts: seq<Turn>): (r: seq<Turn>)
    ensures |ts| > 0 ==> |r| <= MaxHistorySize && |r| > 0 && r[|r| - 1] == ts[|ts| - 1]
    ensures |ts| == 0 ==> r == h
    decreases |ts|
  {
    if |ts| == 0 then h
    else Retained(CommitAll(h, ts[..|ts| - 1]) + [ts[|ts| - 1]])
  }

  /** Committing N turns keeps exactly the min(N + |h|, MaxHistorySize)
      most recent turns, in arrival order. */
  lemma {:induction false} CommitAllKeepsMostRecent(h: seq<Turn>, ts: seq<Turn>)
    requires |h| <= MaxHistorySize
    ensures CommitAll(h, ts) == Retained(h + ts)
    decreases |ts|
  {
    if |ts| == 0 {
      assert h + ts == h;
    } else {
      var init, t := ts[..|ts| - 1], ts[|ts| - 1];
      assert ts == init + [t];
      assert h + ts == (h + init) + [t];
      calc {
        CommitAll(h, ts);
        Retained(CommitAll(h, init) + [t]);
        { CommitAllKeepsMostRecent(h, init); }
        Retained(Retained(h + init) + [t]);
        { RetainedAppend(h + init, t); }
        Retained(h + ts);
      }
    }
  }

  /** Within the bound the single `if` evicts exactly as the loop does, and
      keeps the bound. */
  lemma CommitOnceWithinBound(h: seq<Turn>, t: Turn)
    requires |h| <= MaxHistorySize
    ensures CommitOnce(h, t) == Retained(h + [t])
    ensures |CommitOnce(h, t)| <= MaxHistorySize
  {
    var a := h + [t];
    if |a| > MaxHistorySize {
      assert Retained(a) == Retained(a[1..]);
    }
  }

  /** Past the bound the single `if` removes only one turn per commit: the
      history keeps its oversized length and differs from what the loop
      would leave. */
  lemma CommitOnceOversized(h: seq<Turn>, t: Turn)
    requires |h| > MaxHistorySize
    ensures |CommitOnce(h, t)| == |h| > MaxHistorySize
    ensures CommitOnce(h, t) != Retained(h + [t])
  {
  }

  /** The history after committing `ts` one by one onto `h` with the
      single-`if` eviction. */
  function CommitAllOnce(h: seq<Turn>, ts: seq<Turn>): (r: seq<Turn>)
    ensures |h| <= MaxHistorySize ==> |r| <= MaxHistorySize
    ensures |ts| > 0 ==> |r| > 0 && r[|r| - 1] == ts[|ts| - 1]
    ensures |ts| == 0 ==> r == h
    decreases |ts|
  {
    if |ts| == 0 then h
    else CommitOnce(CommitAllOnce(h, ts[..|ts| - 1]), ts[|ts| - 1])
  }

  /** Starting within the bound, the single-`if` commits keep the same most
      recent turns as the loop does. */
  lemma {:induction false} CommitAllOnceKeepsMostRecent(h: seq<Turn>, ts: seq<Turn>)
    requires |h| <= MaxHistorySize
    ensures CommitAllOnce(h, ts) == Retained(h + ts)
    decreases |ts|
  {
    if |ts| == 0 {
      assert h + ts == h;
    } else {
      var init, t := ts[..|ts| - 1], ts[|ts| - 1];
      assert ts == init + [t];
      assert h + ts == (h + init) + [t];
      calc {
        CommitAllOnce(h, ts);
        CommitOnce(CommitAllOnce(h, init), t);
        { CommitAllOnceKeepsMostRecent(h, init); }
        CommitOnce(Retained(h + init), t);
        { CommitOnceWithinBound(Retained(h + init), t); }
        Retained(Retained(h + init) + [t]);
        { RetainedAppend(h + init, t); }
        Retained(h + ts);
      }
    }
  }
}
