/**
 * The overlay's log queue (log, clear and the decay part of exitUpdate in
 * index.js): entries are appended one per line of a message, the oldest is
 * evicted when the queue is at capacity, and every frame the decay pass
 * takes the frame's time from each entry it examines and removes one whose
 * life is used up; the entry right after a removed one is not examined.
 */
module LogQueue {

  datatype LogEntry = LogEntry(text: string, life: real, color: string)

  /** The life every new entry starts with. */
  const InitialLife: real := 10.0

  /** The colour used when the caller passes none (or an empty one). */
  const DefaultColor: string := "white"

  function ColorOrDefault(color: string): (c: string)
    ensures c != ""
    ensures color != "" ==> c == color
  {
    if color == "" then DefaultColor else color
  }

  /** How many times `c` occurs in `s`. */
  function Occurrences(s: string, c: char): nat {
    if s == [] then 0 else (if s[0] == c then 1 else 0) + Occurrences(s[1..], c)
  }

  /**
   * The message's escaped quotes turned into plain ones: every backslash
   * followed by a quote becomes a quote, scanning left to right.
   */
  function Unescape(s: string): (r: string)
    ensures |r| <= |s|
    ensures Occurrences(r, '\n') == Occurrences(s, '\n')
    ensures (forall i :: 0 <= i < |s| ==> s[i] != '\\') ==> r == s
  {
    if |s| >= 2 && s[0] == '\\' && s[1] == '\'' then
      assert Occurrences(s, '\n') == Occurrences(s[2..], '\n') by {
        assert s[1..][1..] == s[2..];
      }
      "'" + Unescape(s[2..])
    else if s == [] then []
    else [s[0]] + Unescape(s[1..])
  }

  /** The escaping Unescape undoes: a backslash before every quote. */
  function Escape(t: string): (s: string)
    ensures |s| > 0 ==> s[0] != '\''
  {
    if t == [] then []
    else if t[0] == '\'' then "\\'" + Escape(t[1..])
    else [t[0]] + Escape(t[1..])
  }

  /** Unescaping an escaped text gives the text back. */
  lemma {:induction false} UnescapeEscape(t: string)
    ensures Unescape(Escape(t)) == t
  {
    if t != [] {
      UnescapeEscape(t[1..]);
      var s := Escape(t);
      if t[0] == '\'' {
        assert s[2..] == Escape(t[1..]);
      } else {
        assert s[1..] == Escape(t[1..]);
      }
      assert [t[0]] + t[1..] == t;
    }
  }

  /** The lines of `s`, split at every line break; a message without one is a single line. */
  function Split(s: string): (lines: seq<string>)
    ensures |lines| == Occurrences(s, '\n') + 1
    ensures forall i :: 0 <= i < |lines| ==> '\n' !in lines[i]
    ensures Join(lines) == s
  {
    if s == [] then [""]
    else
      var rest := Split(s[1..]);
      if s[0] == '\n' then [""] + rest
      else
        var lines := [[s[0]] + rest[0]] + rest[1..];
        assert Join(lines) == s by {
          JoinConsChar(s[0], rest);
          assert [s[0]] + s[1..] == s;
        }
        lines
  }

  /** The lines put back together with line breaks between them. */
  function Join(lines: seq<string>): string
    requires |lines| >= 1
  {
    if |lines| == 1 then lines[0] else lines[0] + "\n" + Join(lines[1..])
  }

  lemma AppendAssociates<T>(a: seq<T>, b: seq<T>, c: seq<T>)
    ensures (a + b) + c == a + (b + c)
  {
  }

  lemma JoinConsChar(c: char, lines: seq<string>)
    requires |lines| >= 1
    ensures Join([[c] + lines[0]] + lines[1..]) == [c] + Join(lines)
  {
    var l := [[c] + lines[0]] + lines[1..];
    assert |l| == |lines| && l[0] == [c] + lines[0];
    if |lines| > 1 {
      assert l[1..] == lines[1..];
      var j := Join(lines[1..]);
      AppendAssociates([c], lines[0], "\n");
      AppendAssociates([c], lines[0] + "\n", j);
    }
  }

  /** Splitting undoes joining: lines without line breaks come back as they were. */
  lemma {:induction false} SplitJoin(lines: seq<string>)
    requires |lines| >= 1
    requires forall i :: 0 <= i < |lines| ==> '\n' !in lines[i]
    ensures Split(Join(lines)) == lines
    decreases |lines|, |lines[0]|
  {
    var first := lines[0];
    if first == [] {
      if |lines| > 1 {
        SplitJoin(lines[1..]);
        var s := Join(lines);
        assert s == "\n" + Join(lines[1..]);
        assert s[1..] == Join(lines[1..]);
        assert lines == [""] + lines[1..];
      }
    } else {
      var tail := [first[1..]] + lines[1..];
      assert tail[1..] == lines[1..];
      forall i | 0 <= i < |tail| ensures '\n' !in tail[i] {
        if i == 0 {
          assert forall c :: c in first[1..] ==> c in first;
        }
      }
      SplitJoin(tail);
      JoinConsChar(first[0], tail);
      assert [first[0]] + tail[0] == first;
      assert [[first[0]] + tail[0]] + tail[1..] == lines;
      var s := Join(lines);
      assert s == [first[0]] + Join(tail);
      assert s[1..] == Join(tail);
      assert s[0] == first[0] && s[0] != '\n';
    }
  }

  /** The lines a call to log produces for a message. */
  function MessageLines(message: string): (lines: seq<string>)
    ensures |lines| == Occurrences(message, '\n') + 1
    ensures forall i :: 0 <= i < |lines| ==> '\n' !in lines[i]
    ensures Join(lines) == Unescape(message)
  {
    Split(Unescape(message))
  }

  /** Fresh entries for the given lines, all with the initial life and one colour. */
  function NewEntries(lines: seq<string>, color: string): (es: seq<LogEntry>)
    ensures |es| == |lines|
    ensures forall i :: 0 <= i < |es| ==> es[i] == LogEntry(lines[i], InitialLife, color)
  {
    seq(|lines|, i requires 0 <= i < |lines| => LogEntry(lines[i], InitialLife, color))
  }

  /** One push: shift the oldest entry out when at capacity (a no-op on an empty queue), then append. */
  function Push(logs: seq<LogEntry>, e: LogEntry, capacity: int): (r: seq<LogEntry>)
    ensures |r| == MaxInt(|logs|, MinInt(MaxInt(capacity, 1), |logs| + 1))
    ensures r[|r| - 1] == e
  {
    (if |logs| >= capacity && logs != [] then logs[1..] else logs) + [e]
  }

  /** Pushing entries one after another, as the loop in log does. */
  function PushAll(logs: seq<LogEntry>, es: seq<LogEntry>, capacity: int): seq<LogEntry>
    decreases |es|
  {
    if es == [] then logs else Push(PushAll(logs, es[..|es| - 1], capacity), es[|es| - 1], capacity)
  }

  /** One more entry of `es` pushed is one more push. */
  lemma PushAllStep(logs: seq<LogEntry>, es: seq<LogEntry>, i: nat, capacity: int)
    requires i < |es|
    ensures PushAll(logs, es[..i + 1], capacity) == Push(PushAll(logs, es[..i], capacity), es[i], capacity)
  {
    assert es[..i + 1][..i] == es[..i];
  }

  function MaxInt(a: int, b: int): int { if a > b then a else b }

  function MinInt(a: int, b: int): int { if a < b then a else b }

  /**
   * Pushing k entries onto n with capacity c leaves max(n, min(c, n + k))
   * entries (c taken as at least 1, since a push always lands), and they are
   * the newest ones of old-then-new in order: only the oldest are evicted,
   * and an over-full queue is not trimmed, only kept at its length.
   */
  lemma PushAllKeepsNewest(logs: seq<LogEntry>, es: seq<LogEntry>, capacity: int)
    ensures var r := PushAll(logs, es, capacity);
      && |r| == MaxInt(|logs|, MinInt(MaxInt(capacity, 1), |logs| + |es|))
      && r == (logs + es)[|logs| + |es| - |r|..]
  {
    PushAllLength(logs, es, capacity);
    PushAllIsSuffix(logs, es, capacity);
  }

  lemma {:induction false} PushAllLength(logs: seq<LogEntry>, es: seq<LogEntry>, capacity: int)
    ensures |PushAll(logs, es, capacity)| == MaxInt(|logs|, MinInt(MaxInt(capacity, 1), |logs| + |es|))
    decreases |es|
  {
    if es != [] {
      PushAllLength(logs, es[..|es| - 1], capacity);
    }
  }

  lemma {:induction false} PushAllIsSuffix(logs: seq<LogEntry>, es: seq<LogEntry>, capacity: int)
    ensures var r := PushAll(logs, es, capacity);
      |r| <= |logs| + |es| && r == (logs + es)[|logs| + |es| - |r|..]
    decreases |es|
  {
    if es == [] {
      assert logs + es == logs;
    } else {
      var n := |es| - 1;
      var init := es[..n];
      var e := es[n];
      PushAllIsSuffix(logs, init, capacity);
      var r0 := PushAll(logs, init, capacity);
      var all0 := logs + init;
      assert es == init + [e];
      AppendAssociates(logs, init, [e]);
      var d0 := |all0| - |r0|;
      if |r0| >= capacity && r0 != [] {
        SuffixSnocSkip(all0, e, d0);
      } else {
        SuffixSnoc(all0, e, d0);
      }
    }
  }

  /** Appending after a suffix is a suffix of the longer sequence. */
  lemma SuffixSnoc<T>(s: seq<T>, x: T, d: nat)
    requires d <= |s|
    ensures s[d..] + [x] == (s + [x])[d..]
  {
  }

  /** The same after dropping the suffix's first element. */
  lemma SuffixSnocSkip<T>(s: seq<T>, x: T, d: nat)
    requires d < |s|
    ensures s[d..][1..] + [x] == (s + [x])[d + 1..]
  {
  }

  /** Lowering the capacity does not shorten the queue: the next push keeps its length. */
  lemma PushOverCapacityKeepsLength(logs: seq<LogEntry>, e: LogEntry, capacity: int)
    requires |logs| > capacity && logs != []
    ensures |Push(logs, e, capacity)| == |logs| > capacity
    ensures Push(logs, e, capacity) == logs[1..] + [e]
  {
  }

  /** What happens to one entry in a decay pass. */
  datatype Fate = Decremented | Removed | Skipped

  /**
   * One pass of the decay loop in exitUpdate. The loop decrements the entry
   * at the current index and splices it out when its life is used up; the
   * next entry then moves into that index and the loop moves past it, so the
   * entry right after a removed one is neither decremented nor examined in
   * this pass.
   */
  function Decay(logs: seq<LogEntry>, time: real): seq<LogEntry>
    decreases |logs|
  {
    if logs == [] then []
    else
      var e := logs[0].(life := logs[0].life - time);
      if e.life <= 0.0 then
        (if |logs| == 1 then [] else [logs[1]] + Decay(logs[2..], time))
      else [e] + Decay(logs[1..], time)
  }

  /** The fate of each entry in a pass, by the same walk as Decay. */
  function Fates(logs: seq<LogEntry>, time: real): (fs: seq<Fate>)
    ensures |fs| == |logs|
    decreases |logs|
  {
    if logs == [] then []
    else if logs[0].life - time <= 0.0 then
      (if |logs| == 1 then [Removed] else [Removed, Skipped] + Fates(logs[2..], time))
    else [Decremented] + Fates(logs[1..], time)
  }

  /** Keeps the entries in order, dropping removed ones and decrementing decremented ones. */
  function Apply(logs: seq<LogEntry>, fs: seq<Fate>, time: real): seq<LogEntry>
    requires |fs| == |logs|
    decreases |logs|
  {
    if logs == [] then []
    else
      var rest := Apply(logs[1..], fs[1..], time);
      match fs[0]
      case Removed => rest
      case Skipped => [logs[0]] + rest
      case Decremented => [logs[0].(life := logs[0].life - time)] + rest
  }

  /** Decay is the in-order filter its fates describe; survivors keep their relative order. */
  lemma {:induction false} DecayIsApplyFates(logs: seq<LogEntry>, time: real)
    ensures Decay(logs, time) == Apply(logs, Fates(logs, time), time)
    decreases |logs|
  {
    if logs != [] {
      var fs := Fates(logs, time);
      if logs[0].life - time <= 0.0 {
        if |logs| > 1 {
          DecayIsApplyFates(logs[2..], time);
          assert fs[1..][1..] == Fates(logs[2..], time);
          assert logs[1..][1..] == logs[2..];
        }
      } else {
        DecayIsApplyFates(logs[1..], time);
      }
    }
  }

  /**
   * The fates, entry by entry: an entry is skipped exactly when the one
   * before it was removed; otherwise it is removed exactly when its life
   * after the decrement is at most 0, and decremented otherwise.
   */
  lemma {:induction false} FatesAt(logs: seq<LogEntry>, time: real, k: nat)
    requires k < |logs|
    ensures var fs := Fates(logs, time);
      && (fs[k] == Skipped <==> k > 0 && fs[k - 1] == Removed)
      && (fs[k] == Removed <==> !(k > 0 && fs[k - 1] == Removed) && logs[k].life - time <= 0.0)
      && (fs[k] == Decremented <==> !(k > 0 && fs[k - 1] == Removed) && logs[k].life - time > 0.0)
    decreases k
  {
    var fs := Fates(logs, time);
    if logs[0].life - time <= 0.0 {
      if |logs| > 1 {
        assert fs == [Removed, Skipped] + Fates(logs[2..], time);
        if k >= 2 {
          FatesAt(logs[2..], time, k - 2);
          assert logs[2..][k - 2] == logs[k];
          if k >= 3 {
            assert fs[k - 1] == Fates(logs[2..], time)[k - 3];
          }
        }
      }
    } else {
      assert fs == [Decremented] + Fates(logs[1..], time);
      if k >= 1 {
        FatesAt(logs[1..], time, k - 1);
        assert logs[1..][k - 1] == logs[k];
        if k >= 2 {
          assert fs[k - 1] == Fates(logs[1..], time)[k - 2];
        }
      }
    }
  }

  /** A pass never adds entries. */
  lemma {:induction false} DecayShrinks(logs: seq<LogEntry>, time: real)
    ensures |Decay(logs, time)| <= |logs|
    decreases |logs|
  {
    if logs != [] {
      if logs[0].life - time <= 0.0 {
        if |logs| > 1 { DecayShrinks(logs[2..], time); }
      } else {
        DecayShrinks(logs[1..], time);
      }
    }
  }

  /** When no entry runs out, every entry is decremented and none is removed. */
  lemma {:induction false} DecayWithoutExpiry(logs: seq<LogEntry>, time: real)
    requires forall i :: 0 <= i < |logs| ==> logs[i].life - time > 0.0
    ensures |Decay(logs, time)| == |logs|
    ensures forall i :: 0 <= i < |logs| ==> Decay(logs, time)[i] == logs[i].(life := logs[i].life - time)
    decreases |logs|
  {
    if logs != [] {
      assert forall i :: 0 <= i < |logs[1..]| ==> logs[1..][i] == logs[i + 1];
      DecayWithoutExpiry(logs[1..], time);
      var r := Decay(logs, time);
      assert r == [logs[0].(life := logs[0].life - time)] + Decay(logs[1..], time);
      forall i | 0 <= i < |logs| ensures r[i] == logs[i].(life := logs[i].life - time) {
        if i > 0 { assert r[i] == Decay(logs[1..], time)[i - 1]; }
      }
    }
  }

  /**
   * The skip compounds: of five entries that each pass takes to or below 0,
   * the fourth survives two passes unchanged.
   */
  lemma DecaySkipsTwice()
    ensures var logs := [LogEntry("a", 1.0, "white"), LogEntry("b", 1.0, "white"), LogEntry("c", 1.0, "white"),
                         LogEntry("d", 1.0, "white"), LogEntry("e", 1.0, "white")];
      Decay(Decay(logs, 2.0), 2.0) == [LogEntry("d", 1.0, "white")]
  {
    var logs := [LogEntry("a", 1.0, "white"), LogEntry("b", 1.0, "white"), LogEntry("c", 1.0, "white"),
                 LogEntry("d", 1.0, "white"), LogEntry("e", 1.0, "white")];
    assert logs[2..][2..] == [logs[4]];
    assert Decay(logs[2..][2..], 2.0) == [];
    assert Decay(logs[2..], 2.0) == [logs[3]];
    var once := Decay(logs, 2.0);
    assert once == [logs[1], logs[3]];
    assert once[2..] == [];
  }

  /** Two entries that both run out in one frame: the second survives unchanged. */
  lemma DecaySkipsAfterRemoval()
    ensures Decay([LogEntry("a", 1.0, "white"), LogEntry("b", 1.0, "white")], 2.0)
         == [LogEntry("b", 1.0, "white")]
  {
    var logs := [LogEntry("a", 1.0, "white"), LogEntry("b", 1.0, "white")];
    assert logs[2..] == [];
  }
}
