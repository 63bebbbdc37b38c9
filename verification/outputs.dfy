/**
 Flattening of the message buffer into renderable fragments: a message whose
 data is missing or empty contributes nothing, a string contributes itself,
 and an array contributes its elements in order. Every fragment keeps the
 data type of the message it came from.
 */
module Outputs {
  import opened Kernel

  /** One renderable piece of output. */
  datatype Fragment = Fragment(dataType: DataType, text: string)

  /** True when the renderer skips a message's data: it is missing (falsy),
      the empty string (also falsy), or an array of length 0. */
  predicate IsBlank(d: Data) {
    match d
    case Absent => true
    case Single(t) => |t| == 0
    case Many(xs) => |xs| == 0
  }

  /** The strings a message's data contributes, in the order they are drawn. */
  function Pieces(d: Data): (r: seq<string>)
    ensures |r| == 0 <==> IsBlank(d)
    ensures d.Single? && !IsBlank(d) ==> r == [d.text]
    ensures d.Many? ==> r == d.items
  {
    if IsBlank(d) then []
    else if d.Many? then d.items
    else [d.text]
  }

  /** The fragments of one message: one per piece, tagged with its data type. */
  function Fragments(m: KernelOutput): seq<Fragment> {
    var ps := Pieces(m.data);
    seq(|ps|, i requires 0 <= i < |ps| => Fragment(m.dataType, ps[i]))
  }

  /** A message's fragments, read off its `data`: none for missing or empty
      data, the string itself for a non-empty string, and the array's
      elements in order for a non-empty array, each tagged with the
      message's data type. */
  lemma MessageFragments(m: KernelOutput)
    ensures IsBlank(m.data) ==> Fragments(m) == []
    ensures m.data.Single? && m.data.text != "" ==> Fragments(m) == [Fragment(m.dataType, m.data.text)]
    ensures m.data.Many? ==>
              && |Fragments(m)| == |m.data.items|
              && forall i :: 0 <= i < |m.data.items| ==> Fragments(m)[i] == Fragment(m.dataType, m.data.items[i])
  {
  }

  /** Total number of fragments of a buffer: the sum over its messages. */
  function FragmentTotal(msgs: seq<KernelOutput>): nat
    decreases |msgs|
  {
    if |msgs| == 0 then 0
    else FragmentTotal(msgs[..|msgs| - 1]) + |Pieces(msgs[|msgs| - 1].data)|
  }

  /** All fragments of a buffer, message after message. */
  function Flatten(msgs: seq<KernelOutput>): (r: seq<Fragment>)
    ensures |r| == FragmentTotal(msgs)
    decreases |msgs|
  {
    if |msgs| == 0 then []
    else Flatten(msgs[..|msgs| - 1]) + Fragments(msgs[|msgs| - 1])
  }

  /** Flattening distributes over concatenation of buffers. */
  lemma {:induction false} FlattenAppend(a: seq<KernelOutput>, b: seq<KernelOutput>)
    ensures Flatten(a + b) == Flatten(a) + Flatten(b)
    ensures FragmentTotal(a + b) == FragmentTotal(a) + FragmentTotal(b)
    decreases |b|
  {
    if |b| == 0 {
      assert a + b == a;
    } else {
      var b', last := b[..|b| - 1], b[|b| - 1];
      assert (a + b)[..|a + b| - 1] == a + b';
      assert (a + b)[|a + b| - 1] == last;
      FlattenAppend(a, b');
      calc {
        Flatten(a + b);
        Flatten(a + b') + Fragments(last);
        Flatten(a) + Flatten(b') + Fragments(last);
        Flatten(a) + (Flatten(b') + Fragments(last));
        Flatten(a) + Flatten(b);
      }
    }
  }

  /** The i-th message's fragments sit, unchanged and contiguous, right after
      those of the messages before it. */
  lemma FlattenPlacesMessage(msgs: seq<KernelOutput>, i: int)
    requires 0 <= i < |msgs|
    ensures FragmentTotal(msgs[..i + 1]) == FragmentTotal(msgs[..i]) + |Pieces(msgs[i].data)|
    ensures FragmentTotal(msgs[..i + 1]) <= FragmentTotal(msgs)
    ensures Flatten(msgs)[FragmentTotal(msgs[..i])..FragmentTotal(msgs[..i + 1])] == Fragments(msgs[i])
  {
    var pre, rest := msgs[..i + 1], msgs[i + 1..];
    assert msgs == pre + rest;
    assert pre[..i] == msgs[..i];
    FlattenAppend(pre, rest);
  }

  /** A buffer of messages without data renders nothing. */
  lemma {:induction false} BlankBufferRendersNothing(msgs: seq<KernelOutput>)
    requires forall i :: 0 <= i < |msgs| ==> IsBlank(msgs[i].data)
    ensures Flatten(msgs) == []
    decreases |msgs|
  {
    if |msgs| > 0 {
      BlankBufferRendersNothing(msgs[..|msgs| - 1]);
    }
  }

  /** The rendering loop over the buffer, building the fragment list one message at a time. */
  method CollectFragments(msgs: seq<KernelOutput>) returns (out: seq<Fragment>)
    ensures out == Flatten(msgs)
    ensures |out| == FragmentTotal(msgs)
  {
    out := [];
    var i := 0;
    while i < |msgs|
      invariant 0 <= i <= |msgs|
      invariant out == Flatten(msgs[..i])
    {
      var d := msgs[i].data;
      ghost var frags := Fragments(msgs[i]);
      MessageFragments(msgs[i]);
      if !IsBlank(d) {
        var pieces: seq<string>;
        if d.Many? {
          pieces := d.items;
        } else {
          pieces := [d.text];
        }
        var j := 0;
        while j < |pieces|
          invariant 0 <= j <= |pieces|
          invariant out == Flatten(msgs[..i]) + frags[..j]
        {
          assert frags[..j + 1] == frags[..j] + [Fragment(msgs[i].dataType, pieces[j])];
          out := out + [Fragment(msgs[i].dataType, pieces[j])];
          j := j + 1;
        }
        assert frags[..j] == frags;
      }
      assert msgs[..i + 1][..i] == msgs[..i];
      assert Flatten(msgs[..i + 1]) == Flatten(msgs[..i]) + frags;
      i := i + 1;
    }
    assert msgs[..i] == msgs;
  }
}
