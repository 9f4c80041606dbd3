/** `select_contextual_history`: the recent turns of a conversation that
    the reply is based on.  Starting from the latest message it walks
    backwards; a message older than five minutes before the latest one is
    kept only when an outside judge (a language-model call) says it is
    related to the earliest message kept so far, and the first one judged
    unrelated ends the walk. */
module ContextSelector {
  import opened Wrappers

  /** A conversation turn: its `timestamp` string and its `message`. */
  datatype Turn = Turn(timestamp: string, message: string)

  /** `timedelta(minutes=5)`, in seconds. */
  const Window: int := 300

  /** `parse_timestamp(entry)`: the parsed time, or the current time
      `now` when the string does not parse.  `parse` stands for
      `datetime.strptime` with the format `%Y-%m-%d %H:%M:%S`, in seconds. */
  function TimeOf(t: Turn, parse: string -> Option<int>, now: int): int {
    match parse(t.timestamp)
    case Some(s) => s
    case None => now
  }

  /** The position where the walk stops when `full[i + 1..]` is already
      selected and `full[i]` is looked at next. */
  function Start(full: seq<Turn>, i: int, maxTurns: int, cutoff: int,
                 parse: string -> Option<int>, now: int, related: (string, string) -> bool): (s: nat)
    requires -1 <= i < |full| - 1
    ensures s <= i + 1
    decreases i + 1
  {
    if i < 0 || |full| - 1 - i >= maxTurns then i + 1
    else if TimeOf(full[i], parse, now) < cutoff && !related(full[i].message, full[i + 1].message) then i + 1
    else Start(full, i - 1, maxTurns, cutoff, parse, now, related)
  }

  /** The history `select_contextual_history` returns. */
  function Contextual(full: seq<Turn>, maxTurns: int, parse: string -> Option<int>, now: int,
                      related: (string, string) -> bool): seq<Turn>
  {
    if |full| == 0 then []
    else
      var cutoff := TimeOf(full[|full| - 1], parse, now) - Window;
      full[Start(full, |full| - 2, maxTurns, cutoff, parse, now, related)..]
  }

  /** `select_contextual_history(full_history, max_turns)`; `related` is
      the answer of `is_contextually_related`. */
  method SelectContextualHistory(full: seq<Turn>, maxTurns: int, parse: string -> Option<int>, now: int,
                                 related: (string, string) -> bool) returns (selected: seq<Turn>)
    ensures selected == Contextual(full, maxTurns, parse, now, related)
  {
    if |full| == 0 {
      return [];
    }
    var latest := full[|full| - 1];
    var latestTime := TimeOf(latest, parse, now);
    selected := [latest];
    var cutoff := latestTime - Window;
    var index := |full| - 2;
    ghost var stop := Start(full, index, maxTurns, cutoff, parse, now, related);
    while index >= 0 && |selected| < maxTurns
      invariant -1 <= index <= |full| - 2
      invariant selected == full[index + 1..]
      invariant Start(full, index, maxTurns, cutoff, parse, now, related) == stop
      decreases index
    {
      var current := full[index];
      var currentTime := TimeOf(current, parse, now);
      if currentTime < cutoff {
        if !related(current.message, selected[0].message) {
          break;
        }
      }
      selected := [current] + selected;
      index := index - 1;
    }
  }

  /** Every turn of `full[s..i + 1]` is recent or was judged related to
      the turn after it. */
  predicate Admitted(full: seq<Turn>, s: nat, i: int, cutoff: int,
                     parse: string -> Option<int>, now: int, related: (string, string) -> bool)
    requires i < |full| - 1
  {
    forall k | s <= k <= i :: TimeOf(full[k], parse, now) >= cutoff || related(full[k].message, full[k + 1].message)
  }

  /** The walk may end at `s`: the history starts there, the length bound
      is reached, or the turn before it is old and judged unrelated. */
  predicate Stopped(full: seq<Turn>, s: nat, maxTurns: int, cutoff: int,
                    parse: string -> Option<int>, now: int, related: (string, string) -> bool)
    requires s < |full|
  {
    || s == 0
    || |full| - s >= maxTurns
    || (TimeOf(full[s - 1], parse, now) < cutoff && !related(full[s - 1].message, full[s].message))
  }

  lemma {:induction false} StartSpec(full: seq<Turn>, i: int, maxTurns: int, cutoff: int,
                                     parse: string -> Option<int>, now: int, related: (string, string) -> bool)
    requires -1 <= i < |full| - 1
    ensures |full| - 1 - i < maxTurns ==> |full| - Start(full, i, maxTurns, cutoff, parse, now, related) <= maxTurns
    ensures |full| - 1 - i >= maxTurns ==> Start(full, i, maxTurns, cutoff, parse, now, related) == i + 1
    ensures Admitted(full, Start(full, i, maxTurns, cutoff, parse, now, related), i, cutoff, parse, now, related)
    ensures Stopped(full, Start(full, i, maxTurns, cutoff, parse, now, related), maxTurns, cutoff, parse, now, related)
    decreases i + 1
  {
    if i < 0 || |full| - 1 - i >= maxTurns {
    } else if TimeOf(full[i], parse, now) < cutoff && !related(full[i].message, full[i + 1].message) {
    } else {
      StartSpec(full, i - 1, maxTurns, cutoff, parse, now, related);
    }
  }

  /** An empty history gives `[]`.  Otherwise the result is a suffix of the
      history in its own order, ending with the latest turn, at most
      `max(1, max_turns)` long; every turn in it but the latest is recent
      or was judged related to the turn after it; and the walk stopped
      only at the start of the history, at the length bound, or at an
      older turn judged unrelated to the earliest turn kept. */
  lemma ContextualSpec(full: seq<Turn>, maxTurns: int, parse: string -> Option<int>, now: int,
                       related: (string, string) -> bool)
    ensures |full| == 0 <==> Contextual(full, maxTurns, parse, now, related) == []
    ensures |full| > 0 ==>
      var cutoff := TimeOf(full[|full| - 1], parse, now) - Window;
      exists s: nat | s < |full| ::
        && Contextual(full, maxTurns, parse, now, related) == full[s..]
        && |full| - s <= (if maxTurns > 1 then maxTurns else 1)
        && Admitted(full, s, |full| - 2, cutoff, parse, now, related)
        && Stopped(full, s, maxTurns, cutoff, parse, now, related)
  {
    if |full| > 0 {
      var cutoff := TimeOf(full[|full| - 1], parse, now) - Window;
      StartSpec(full, |full| - 2, maxTurns, cutoff, parse, now, related);
    }
  }

  /** Turns from five minutes before the latest one onwards are taken
      without asking the judge: when the last `n` turns (within the length
      bound) are all that recent, all of them are selected, whatever
      `related` says. */
  lemma RecentTaken(full: seq<Turn>, maxTurns: int, parse: string -> Option<int>, now: int,
                    related: (string, string) -> bool, n: nat)
    requires 1 <= n <= |full| && (n <= maxTurns || n == 1)
    requires forall k | |full| - n <= k < |full| ::
      TimeOf(full[k], parse, now) >= TimeOf(full[|full| - 1], parse, now) - Window
    ensures |Contextual(full, maxTurns, parse, now, related)| >= n
  {
    var cutoff := TimeOf(full[|full| - 1], parse, now) - Window;
    RecentStart(full, |full| - 2, maxTurns, cutoff, parse, now, related, |full| - n);
  }

  lemma {:induction false} RecentStart(full: seq<Turn>, i: int, maxTurns: int, cutoff: int,
                                       parse: string -> Option<int>, now: int, related: (string, string) -> bool, m: nat)
    requires -1 <= i < |full| - 1 && m <= i + 1
    requires |full| - m <= maxTurns || m == |full| - 1
    requires forall k | m <= k <= i :: TimeOf(full[k], parse, now) >= cutoff
    ensures Start(full, i, maxTurns, cutoff, parse, now, related) <= m
    decreases i + 1
  {
    if i < 0 || |full| - 1 - i >= maxTurns {
    } else if i >= m {
      assert TimeOf(full[i], parse, now) >= cutoff;
      RecentStart(full, i - 1, maxTurns, cutoff, parse, now, related, m);
    }
  }
}
