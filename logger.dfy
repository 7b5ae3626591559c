/**
 * The thread-labelled logger (src/logger.cpp).
 *
 * Each thread that logs is given a small label the first time it logs: the
 * number of threads seen before it. Every line starts with a prefix that
 * shows label `i` as `[i+1]`, coloured with the SGR escape sequence of
 * ECMA-48 section 8.3.117 (foreground colour code `i+31`), then resets the
 * colour.
 */
module Logging {
  import opened Wrappers
  import Decimal

  /** The ESC control character, 0x1B. */
  const Esc: char := 27 as char

  /** What follows the label: the closing bracket and the SGR reset sequence. */
  const Trailer: string := "]" + [Esc] + "[0m "

  /** The prefix of every line written by a thread labelled `index`:
      ESC "[" (index+31) "m[" (index+1) "]" ESC "[0m ". */
  function Prefix(index: nat): string {
    [Esc, '['] + Decimal.Render(index + 31) + "m[" + Decimal.Render(index + 1) + Trailer
  }

  /** A line written by `Logger::puts`: the prefix, the message and the newline
      that C's `puts` appends (ISO C11 section 7.21.7.9). */
  function PutsLine(index: nat, msg: string): string {
    Prefix(index) + msg + "\n"
  }

  /** Reads a prefix from the front of `s`: the label it shows and the text
      after it, or `None` when `s` does not start with a well-formed prefix. */
  function ReadPrefix(s: string): Option<(nat, string)> {
    if |s| < 2 || s[..2] != [Esc, '['] then None
    else match Decimal.ReadNat(s[2..])
      case None => None
      case Some((code, t)) => ReadLabel(code, t)
  }

  /** The rest of a prefix after its colour code: "m[", the label shown, and
      the trailer; the code and the shown label must agree. */
  function ReadLabel(code: nat, t: string): Option<(nat, string)> {
    if code < 31 || |t| < 2 || t[..2] != "m[" then None
    else match Decimal.ReadNat(t[2..])
      case None => None
      case Some((shown, u)) =>
        if shown != code - 30 || |u| < |Trailer| || u[..|Trailer|] != Trailer then None
        else Some((code - 31, u[|Trailer|..]))
  }

  lemma ReadLabelOfPrefixTail(index: nat, rest: string)
    ensures ReadLabel(index + 31, "m[" + Decimal.Render(index + 1) + Trailer + rest) == Some((index, rest))
  {
    var u := Trailer + rest;
    var t := "m[" + Decimal.Render(index + 1) + Trailer + rest;
    assert t[..2] == "m[";
    assert t[2..] == Decimal.Render(index + 1) + u;
    Decimal.ReadNatOfRender(index + 1, u);
    assert u[..|Trailer|] == Trailer;
    assert u[|Trailer|..] == rest;
  }

  /** The label can be read back from any text that starts with its prefix. */
  lemma ReadPrefixOfPrefix(index: nat, rest: string)
    ensures ReadPrefix(Prefix(index) + rest) == Some((index, rest))
  {
    var t := "m[" + Decimal.Render(index + 1) + Trailer + rest;
    var s := Prefix(index) + rest;
    assert s == [Esc, '['] + (Decimal.Render(index + 31) + t);
    assert s[..2] == [Esc, '['];
    assert s[2..] == Decimal.Render(index + 31) + t;
    Decimal.ReadNatOfRender(index + 31, t);
    ReadLabelOfPrefixTail(index, rest);
  }

  /** Different labels give different prefixes. */
  lemma PrefixInjective(i: nat, j: nat)
    requires Prefix(i) == Prefix(j)
    ensures i == j
  {
    ReadPrefixOfPrefix(i, []);
    ReadPrefixOfPrefix(j, []);
    assert Prefix(i) + [] == Prefix(j) + [];
  }

  /** A line written by `puts` gives back its label and its message. */
  lemma PutsLineReadsBack(index: nat, msg: string)
    ensures ReadPrefix(PutsLine(index, msg)) == Some((index, msg + "\n"))
  {
    assert PutsLine(index, msg) == Prefix(index) + (msg + "\n");
    ReadPrefixOfPrefix(index, msg + "\n");
  }

  // ---------------------------------------------------------------------
  // Label assignment
  // ---------------------------------------------------------------------

  /** Labels are below the number of labelled threads and pairwise distinct. */
  ghost predicate DenseLabels<ThreadId>(ids: map<ThreadId, nat>) {
    && (forall t :: t in ids ==> ids[t] < |ids|)
    && (forall t1, t2 :: t1 in ids && t2 in ids && t1 != t2 ==> ids[t1] != ids[t2])
  }

  /** The labels 0 .. n-1. */
  ghost function Labels(n: nat): (r: set<nat>)
    ensures forall i: nat :: i in r <==> i < n
    ensures |r| == n
  {
    if n == 0 then {} else Labels(n - 1) + {n - 1}
  }

  lemma {:induction false} SubsetOfSameSize<T>(a: set<T>, b: set<T>)
    requires a <= b && |a| == |b|
    ensures a == b
    decreases a
  {
    if a != {} {
      var x :| x in a;
      SubsetOfSameSize(a - {x}, b - {x});
    }
  }

  /** With pairwise distinct labels there are as many labels as threads. */
  lemma {:induction false} DistinctLabelsCount<ThreadId>(ids: map<ThreadId, nat>)
    requires forall t1, t2 :: t1 in ids && t2 in ids && t1 != t2 ==> ids[t1] != ids[t2]
    ensures |ids.Values| == |ids|
    decreases |ids|
  {
    if |ids| > 0 {
      var t :| t in ids;
      var rest := ids - {t};
      assert rest.Values == ids.Values - {ids[t]} by {
        forall v | v in ids.Values - {ids[t]} ensures v in rest.Values {
          var t' :| t' in ids && ids[t'] == v;
          assert t' in rest;
        }
      }
      DistinctLabelsCount(rest);
    }
  }

  /** The labels in use are exactly 0 .. n-1 for n labelled threads. */
  lemma LabelsAreDense<ThreadId>(ids: map<ThreadId, nat>)
    requires DenseLabels(ids)
    ensures ids.Values == Labels(|ids|)
  {
    var n := |ids|;
    assert ids.Values <= Labels(n);
    DistinctLabelsCount(ids);
    SubsetOfSameSize(ids.Values, Labels(n));
  }

  /** Threads with different ids write different prefixes. */
  lemma DistinctThreadsDistinctPrefixes<ThreadId>(ids: map<ThreadId, nat>, a: ThreadId, b: ThreadId)
    requires DenseLabels(ids)
    requires a in ids && b in ids && a != b
    ensures Prefix(ids[a]) != Prefix(ids[b])
  {
    if Prefix(ids[a]) == Prefix(ids[b]) {
      PrefixInjective(ids[a], ids[b]);
    }
  }

  /** The logger's state: the static map from thread id to label kept by
      `print_prefix`, and the text written to standard output so far. */
  class Logger<ThreadId(==)> {
    var threadIds: map<ThreadId, nat>
    var out: string

    ghost predicate Valid()
      reads this
    {
      DenseLabels(threadIds)
    }

    constructor ()
      ensures Valid()
      ensures threadIds == map[] && out == []
    {
      threadIds := map[];
      out := [];
    }

    /** `print_prefix`, run by thread `thread`: looks the thread up, gives it
        the next label if it is new, and writes the prefix of its label. */
    method PrintPrefix(thread: ThreadId)
      requires Valid()
      modifies this
      ensures Valid()
      ensures thread in old(threadIds) ==> threadIds == old(threadIds)
      ensures thread !in old(threadIds) ==> threadIds == old(threadIds)[thread := |old(threadIds)|]
      ensures thread in threadIds
      ensures out == old(out) + Prefix(threadIds[thread])
    {
      if thread !in threadIds {
        threadIds := threadIds[thread := |threadIds|];
      }
      out := out + Prefix(threadIds[thread]);
    }

    /** `Logger::puts`, run by thread `thread`: the prefix, then the message,
        then a newline. */
    method Puts(thread: ThreadId, msg: string)
      requires Valid()
      modifies this
      ensures Valid()
      ensures thread in old(threadIds) ==> threadIds == old(threadIds)
      ensures thread !in old(threadIds) ==> threadIds == old(threadIds)[thread := |old(threadIds)|]
      ensures thread in threadIds
      ensures out == old(out) + PutsLine(threadIds[thread], msg)
    {
      PrintPrefix(thread);
      out := out + msg + "\n";
    }

    /** `Logger::printf`, run by thread `thread`: the prefix, then the text
        `vprintf` produced, which is given already formatted. */
    method Printf(thread: ThreadId, formatted: string)
      requires Valid()
      modifies this
      ensures Valid()
      ensures thread in old(threadIds) ==> threadIds == old(threadIds)
      ensures thread !in old(threadIds) ==> threadIds == old(threadIds)[thread := |old(threadIds)|]
      ensures thread in threadIds
      ensures out == old(out) + Prefix(threadIds[thread]) + formatted
    {
      PrintPrefix(thread);
      out := out + formatted;
    }
  }

  /** Thread `a` logs, then thread `b` for the first time, then `a` again:
      `a` keeps label 0 on both of its lines and `b` is given label 1. */
  method LogThreeLines<ThreadId(==)>(a: ThreadId, b: ThreadId, first: string, second: string, third: string)
    returns (text: string)
    requires a != b
    ensures text == PutsLine(0, first) + PutsLine(1, second) + PutsLine(0, third)
  {
    var logger := new Logger<ThreadId>();
    logger.Puts(a, first);
    logger.Puts(b, second);
    logger.Puts(a, third);
    text := logger.out;
  }
}
