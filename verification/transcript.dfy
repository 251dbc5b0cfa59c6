/** Turns, transcripts and the bounded request window. */
module Transcript {

  datatype Role = System | User | Assistant

  /** One message of the conversation. */
  datatype Turn = Turn(role: Role, content: string)

  /** The instruction both the terminal loop and the relay server place
      first in a conversation. */
  const SystemPrompt: string :=
    "You are a helpful coding assistant. Provide concise, runnable code only when asked. Be polite and brief."

  const SystemTurn: Turn := Turn(System, SystemPrompt)

  /** Number of most recent turns sent with each completion request. */
  const WindowSize: nat := 20

  function Min(a: int, b: int): int {
    if a <= b then a else b
  }

  /** How `Array.prototype.slice` and `String.prototype.slice` read a
      relative index: negative counts from the end, and the result is
      clamped to `0..len`. */
  function RelativeIndex(k: int, len: nat): nat {
    if k < 0 then (if len + k < 0 then 0 else len + k)
    else if k < len then k else len
  }

  /** `slice(-n)` starts `min(n, len)` entries before the end. */
  lemma FromEnd(n: nat, len: nat)
    requires n > 0
    ensures RelativeIndex(-(n as int), len) == len - Min(n, len)
  {
  }

  /** `s.slice(start, end)` in JavaScript. */
  function Slice<T>(s: seq<T>, start: int, end: int): (r: seq<T>)
    ensures |r| <= |s|
    ensures 0 <= start <= end <= |s| ==> r == s[start..end]
  {
    var from := RelativeIndex(start, |s|);
    var to := RelativeIndex(end, |s|);
    if from < to then s[from..to] else []
  }

  predicate IsSuffix<T(==)>(w: seq<T>, s: seq<T>) {
    |w| <= |s| && w == s[|s| - |w|..]
  }

  /** `s.slice(-n)`: the last `n` entries of `s`, or all of `s` when it is
      shorter. */
  function Window<T(==)>(s: seq<T>, n: nat): (w: seq<T>)
    requires n > 0
    ensures |w| == Min(n, |s|)
    ensures IsSuffix(w, s)
  {
    Slice(s, -(n as int), |s|)
  }

  lemma WindowKeepsOrder<T>(s: seq<T>, n: nat)
    requires n > 0
    ensures var w := Window(s, n);
            forall k :: 0 <= k < |w| ==> w[k] == s[|s| - |w| + k]
  {
  }

  /** The window ends with the transcript's last turn, and starts with its
      first turn exactly when nothing had to be cut. */
  lemma WindowEnds<T>(s: seq<T>, n: nat)
    requires n > 0 && |s| > 0
    ensures Window(s, n)[|Window(s, n)| - 1] == s[|s| - 1]
    ensures |s| <= n ==> Window(s, n) == s
    ensures n < |s| ==> Window(s, n) == s[|s| - n..]
  {
  }

  predicate HasSystemRole(w: seq<Turn>) {
    exists k :: 0 <= k < |w| && w[k].role == System
  }

  predicate NoSystemRole(w: seq<Turn>) {
    forall k :: 0 <= k < |w| ==> w[k].role != System
  }

  /** A transcript as the terminal loop keeps it: the system turn first and
      nowhere else. */
  predicate ValidTranscript(t: seq<Turn>) {
    |t| > 0 && t[0] == SystemTurn && NoSystemRole(t[1..])
  }

  lemma SplitLast<T>(s: seq<T>)
    requires s != []
    ensures s == s[..|s| - 1] + [s[|s| - 1]]
  {
  }

  lemma PrefixOfPrefix<T>(a: seq<T>, b: seq<T>, c: seq<T>)
    requires |a| <= |b| <= |c| && b[..|a|] == a && c[..|b|] == b
    ensures c[..|a|] == a
  {
    assert c[..|a|] == c[..|b|][..|a|];
  }

  /** Appending turns none of which is a system turn keeps a transcript
      valid. */
  lemma ExtendKeepsValid(t: seq<Turn>, r: seq<Turn>)
    requires ValidTranscript(t)
    requires |t| <= |r| && r[..|t|] == t && NoSystemRole(r[|t|..])
    ensures ValidTranscript(r)
  {
    forall k | 1 <= k < |r| ensures r[k].role != System {
      if k < |t| {
        assert r[k] == r[..|t|][k];
      } else {
        assert r[k] == r[|t|..][k - |t|];
      }
    }
  }

  /** Cutting a valid transcript to its window keeps the system turn iff
      the transcript fits in the window. */
  lemma {:induction false} WindowSystemIff(t: seq<Turn>, n: nat)
    requires n > 0 && ValidTranscript(t)
    ensures HasSystemRole(Window(t, n)) <==> |t| <= n
    ensures |t| <= n ==> Window(t, n)[0] == SystemTurn
  {
    var w := Window(t, n);
    if |t| <= n {
      assert w[0] == t[0];
    } else {
      forall k | 0 <= k < |w|
        ensures w[k].role != System
      {
        assert w[k] == t[1..][|t| - n - 1 + k];
      }
    }
  }

  /** Number of turns of the given role. */
  function CountRole(role: Role, t: seq<Turn>): (c: nat)
    ensures c <= |t|
  {
    if t == [] then 0
    else CountRole(role, t[..|t| - 1]) + (if t[|t| - 1].role == role then 1 else 0)
  }

  lemma CountRoleAppend(role: Role, a: seq<Turn>, b: seq<Turn>)
    ensures CountRole(role, a + b) == CountRole(role, a) + CountRole(role, b)
    decreases |b|
  {
    if b == [] {
      assert a + b == a;
    } else {
      assert (a + b)[..|a + b| - 1] == a + b[..|b| - 1];
      CountRoleAppend(role, a, b[..|b| - 1]);
    }
  }
}
