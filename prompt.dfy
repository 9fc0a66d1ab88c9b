/** The prompt sent to the completion backend: the turns of a conversation
    joined with newline characters, as Python's `"\n".join` does. */
module Prompt {

  /** The parts joined with a newline between each two of them; the empty
      sequence joins to the empty string. */
  function Join(parts: seq<string>): (s: string)
    ensures parts == [] ==> s == ""
    ensures parts != [] ==> parts[0] <= s
    ensures |parts| > 1 ==> |s| > |parts[0]| && s[|parts[0]|] == '\n'
  {
    if |parts| == 0 then ""
    else if |parts| == 1 then parts[0]
    else parts[0] + "\n" + Join(parts[1..])
  }

  /** Joining one more part at the end adds a newline and that part (the
      part alone when there was nothing before it). */
  lemma {:induction false} JoinSnoc(parts: seq<string>, last: string)
    ensures Join(parts + [last]) == if parts == [] then last else Join(parts) + "\n" + last
    decreases |parts|
  {
    if |parts| > 1 {
      assert (parts + [last])[1..] == parts[1..] + [last];
      JoinSnoc(parts[1..], last);
    } else if |parts| == 1 {
      assert parts + [last] == [parts[0], last];
    }
  }

  /** Joining concatenates the parts and one newline per gap between them. */
  lemma {:induction false} JoinLength(parts: seq<string>)
    requires parts != []
    ensures |Join(parts)| == TotalLength(parts) + |parts| - 1
    decreases |parts|
  {
    if |parts| > 1 {
      JoinLength(parts[1..]);
    }
  }

  /** The number of characters in all the parts together. */
  function TotalLength(parts: seq<string>): nat
  {
    if parts == [] then 0 else |parts[0]| + TotalLength(parts[1..])
  }

  /** The string cut at every newline, as Python's `s.split("\n")`: always
      at least one piece, and no piece holds a newline. */
  function Split(s: string): (pieces: seq<string>)
    ensures |pieces| >= 1
    ensures forall k :: 0 <= k < |pieces| ==> '\n' !in pieces[k]
  {
    if s == [] then [""]
    else if s[0] == '\n' then [""] + Split(s[1..])
    else
      var rest := Split(s[1..]);
      [[s[0]] + rest[0]] + rest[1..]
  }

  /** A string without a newline is not cut. */
  lemma {:induction false} SplitNoNewline(s: string)
    requires '\n' !in s
    ensures Split(s) == [s]
  {
    if s != [] {
      assert '\n' !in s[1..] by {
        forall k | 0 <= k < |s[1..]| ensures s[1..][k] != '\n' {
          assert s[1..][k] == s[k + 1];
        }
      }
      SplitNoNewline(s[1..]);
      assert [s[0]] + s[1..] == s;
    }
  }

  /** Cutting a newline-free head, a newline and a tail gives the head and
      the cuts of the tail. */
  lemma {:induction false} SplitAfterHead(head: string, tail: string)
    requires '\n' !in head
    ensures Split(head + "\n" + tail) == [head] + Split(tail)
    decreases |head|
  {
    if head == [] {
      assert head + "\n" + tail == ['\n'] + tail;
      assert (['\n'] + tail)[1..] == tail;
    } else {
      var s := head + "\n" + tail;
      assert s[0] == head[0];
      assert s[1..] == head[1..] + "\n" + tail;
      assert '\n' !in head[1..] by {
        forall k | 0 <= k < |head[1..]| ensures head[1..][k] != '\n' {
          assert head[1..][k] == head[k + 1];
        }
      }
      SplitAfterHead(head[1..], tail);
      assert [head[0]] + head[1..] == head;
    }
  }

  /** Splitting undoes joining when no part holds a newline: then the
      prompt determines the turns it was built from. */
  lemma {:induction false} SplitJoin(parts: seq<string>)
    requires parts != []
    requires forall k :: 0 <= k < |parts| ==> '\n' !in parts[k]
    ensures Split(Join(parts)) == parts
    decreases |parts|
  {
    if |parts| == 1 {
      SplitNoNewline(parts[0]);
    } else {
      SplitAfterHead(parts[0], Join(parts[1..]));
      SplitJoin(parts[1..]);
      assert [parts[0]] + parts[1..] == parts;
    }
  }

  /** A turn that holds a newline makes the prompt ambiguous: one turn
      "a\nb" and the two turns "a" and "b" give the same prompt. */
  lemma JoinAmbiguous()
    ensures Join(["a\nb"]) == Join(["a", "b"])
    ensures Split(Join(["a\nb"])) != ["a\nb"]
  {
    SplitAfterHead("a", "b");
    SplitNoNewline("b");
  }
}
