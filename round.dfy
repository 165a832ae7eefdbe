/** What the single-player and multiplayer sessions share about one guessing
    turn: sequences of catalogue indices, the judging of one pick against the
    sequence, and a reference account of where a run of picks ends. */
module Round {
  import opened Catalog

  /** Longest sequence the single-player game generates. */
  const MAX_LENGTH: int := 6

  /** Single-player sequence length for a level: min(level + 1, 6). */
  function SequenceLength(level: int): (n: int)
    ensures level >= 1 ==> 2 <= n <= MAX_LENGTH
    ensures level <= 5 ==> n == level + 1
    ensures level >= 5 ==> n == MAX_LENGTH
  {
    if level + 1 < MAX_LENGTH then level + 1 else MAX_LENGTH
  }

  /** Sequence lengths never shrink as the level rises. */
  lemma SequenceLengthMonotone(l1: int, l2: int)
    requires l1 <= l2
    ensures SequenceLength(l1) <= SequenceLength(l2)
  {
  }

  /** Every entry is a catalogue index. */
  predicate IsSequence(s: seq<int>) {
    forall k :: 0 <= k < |s| ==> IsInstrument(s[k])
  }

  /** How one pick is judged (activate_instrument): a wrong instrument ends the
      turn, a right one advances, and the right one at the last position
      completes the sequence. */
  datatype Verdict = Correct | Complete | Wrong

  function Judge(s: seq<int>, index: nat, pick: int): (v: Verdict)
    requires index < |s|
    ensures v == Wrong <==> pick != s[index]
    ensures v == Complete <==> pick == s[index] && index + 1 == |s|
  {
    if pick != s[index] then Wrong
    else if index + 1 >= |s| then Complete
    else Correct
  }

  /** While waiting for input: every pick so far was right and the next one is
      expected at `index`. */
  predicate OnTrack(s: seq<int>, index: nat, history: seq<int>) {
    index < |s| && history == s[..index]
  }

  /** After a wrong pick: the picks before `index` were right, the one at
      `index` was not. */
  predicate Strayed(s: seq<int>, index: nat, history: seq<int>) {
    index < |s| && |history| == index + 1
    && history[..index] == s[..index] && history[index] != s[index]
  }

  /** One pick keeps the history in step with the verdict: it stays a correct
      prefix, becomes the whole sequence, or ends in exactly one wrong pick. */
  lemma JudgeStep(s: seq<int>, index: nat, history: seq<int>, pick: int)
    requires OnTrack(s, index, history)
    ensures Judge(s, index, pick) == Correct ==> OnTrack(s, index + 1, history + [pick])
    ensures Judge(s, index, pick) == Complete ==> history + [pick] == s
    ensures Judge(s, index, pick) == Wrong ==> Strayed(s, index, history + [pick])
  {
    assert s[..index + 1] == s[..index] + [s[index]];
    assert (history + [pick])[..index] == history;
  }

  /** Where feeding a run of picks into a turn leaves it. */
  datatype Outcome = Playing(index: nat) | Guessed | Missed(at: nat)

  /** Reference definition: feed `picks` one at a time from position `index`,
      stopping at the first verdict that ends the turn. */
  function ReplayFrom(s: seq<int>, index: nat, picks: seq<int>): Outcome
    requires index < |s|
    decreases |picks|
  {
    if picks == [] then Playing(index)
    else match Judge(s, index, picks[0])
      case Wrong => Missed(index)
      case Complete => Guessed
      case Correct => ReplayFrom(s, index + 1, picks[1..])
  }

  function Replay(s: seq<int>, picks: seq<int>): Outcome
    requires |s| > 0
  {
    ReplayFrom(s, 0, picks)
  }

  lemma {:induction false} ReplayFromGuessed(s: seq<int>, index: nat, picks: seq<int>)
    requires index < |s|
    ensures ReplayFrom(s, index, picks) == Guessed
        <==> |picks| >= |s| - index && picks[..|s| - index] == s[index..]
    decreases |picks|
  {
    if picks != [] && picks[0] == s[index] && index + 1 < |s| {
      ReplayFromGuessed(s, index + 1, picks[1..]);
      if |picks| >= |s| - index {
        assert picks[..|s| - index] == [picks[0]] + picks[1..][..|s| - index - 1];
        assert s[index..] == [s[index]] + s[index + 1..];
      }
    } else if picks != [] && picks[0] == s[index] {
      assert picks[..1] == [picks[0]];
      assert s[index..] == [s[index]];
    } else if picks != [] && |picks| >= |s| - index {
      assert picks[..|s| - index][0] != s[index..][0];
    }
  }

  /** A turn is won exactly when the first |s| picks reproduce the sequence
      (whatever comes after them is never looked at). */
  lemma ReplayGuessed(s: seq<int>, picks: seq<int>)
    requires |s| > 0
    ensures Replay(s, picks) == Guessed <==> |picks| >= |s| && picks[..|s|] == s
  {
    ReplayFromGuessed(s, 0, picks);
    assert s[0..] == s;
  }

  lemma {:induction false} ReplayFromMissed(s: seq<int>, index: nat, picks: seq<int>, k: nat)
    requires index < |s|
    ensures ReplayFrom(s, index, picks) == Missed(k)
        <==> index <= k < |s| && k - index < |picks|
             && picks[..k - index] == s[index..k] && picks[k - index] != s[k]
    decreases |picks|
  {
    if picks != [] && picks[0] == s[index] && index + 1 < |s| {
      ReplayFromMissed(s, index + 1, picks[1..], k);
      if index + 1 <= k < |s| && k - index < |picks| {
        assert picks[..k - index] == [picks[0]] + picks[1..][..k - index - 1];
        assert s[index..k] == [s[index]] + s[index + 1..k];
      }
      if k == index {
        assert picks[k - index] == s[k];
      }
    } else if picks != [] && picks[0] == s[index] {
      if index <= k < |s| && k - index < |picks| {
        assert k == index;
      }
    }
  }

  /** A turn is lost at position k exactly when the picks before k were right
      and the pick at k was not. */
  lemma ReplayMissed(s: seq<int>, picks: seq<int>, k: nat)
    requires |s| > 0
    ensures Replay(s, picks) == Missed(k)
        <==> k < |s| && k < |picks| && picks[..k] == s[..k] && picks[k] != s[k]
  {
    ReplayFromMissed(s, 0, picks, k);
    if k <= |s| {
      assert s[0..k] == s[..k];
    }
  }

  /** The states a turn passes through match the reference: a correct prefix
      is still playing, the whole sequence is guessed, a single wrong pick at
      the end is a miss there. */
  lemma ReplayAgrees(s: seq<int>, index: nat, history: seq<int>)
    requires |s| > 0
    ensures OnTrack(s, index, history) ==> Replay(s, history) == Playing(index)
    ensures Strayed(s, index, history) ==> Replay(s, history) == Missed(index)
    ensures history == s ==> Replay(s, history) == Guessed
  {
    ReplayGuessed(s, history);
    if Strayed(s, index, history) {
      ReplayMissed(s, history, index);
    }
    if OnTrack(s, index, history) {
      ReplayPrefix(s, 0, index);
      assert s[0..index] == history;
    }
  }

  lemma {:induction false} ReplayPrefix(s: seq<int>, from: nat, index: nat)
    requires from <= index < |s|
    ensures ReplayFrom(s, from, s[from..index]) == Playing(index)
    decreases index - from
  {
    if from < index {
      assert s[from..index][0] == s[from];
      assert s[from..index][1..] == s[from + 1..index];
      ReplayPrefix(s, from + 1, index);
    } else {
      assert s[from..index] == [];
    }
  }
}
