/** The streaming handler's segment flusher: the flush test (shouldFlush,
    isBreakChar), the segmentation it produces over a stream of fragments,
    and the per-exchange state its callbacks update. */
module Segmenter {

  /** MAX_CHAR: a segment is sent once it holds this many characters. */
  const MaxChar := 20

  /** The characters after which a segment is sent early. */
  const BreakChars := "，。！？；,.!?;\n"

  /** isBreakChar: one of the full-width or ASCII sentence marks, or a newline. */
  predicate IsBreakChar(c: char)
    ensures IsBreakChar(c) <==>
      c == '，' || c == '。' || c == '！' || c == '？' || c == '；'
      || c == ',' || c == '.' || c == '!' || c == '?' || c == ';' || c == '\n'
  {
    c in BreakChars
  }

  /** shouldFlush: never for an empty buffer; always once the buffer holds
      maxLength characters; otherwise exactly when it ends with a break
      character. */
  function ShouldFlush(buffer: string, maxLength: int): (r: bool)
    ensures |buffer| == 0 ==> !r
    ensures |buffer| > 0 && |buffer| >= maxLength ==> r
    ensures 0 < |buffer| < maxLength ==> (r <==> IsBreakChar(buffer[|buffer| - 1]))
  {
    if |buffer| <= 0 then false
    else if |buffer| >= maxLength then true
    else IsBreakChar(buffer[|buffer| - 1])
  }

  /** The text of `ss` laid end to end. */
  function Concat(ss: seq<string>): string
    decreases |ss|
  {
    if |ss| == 0 then "" else Concat(ss[..|ss| - 1]) + ss[|ss| - 1]
  }

  /** The segments sent so far and the text still waiting in the buffer. */
  datatype Segmented = Segmented(segments: seq<string>, pending: string)

  /** What the fragment callback makes of a stream of fragments: each
      fragment is appended to the buffer, and the whole buffer is sent and
      cleared whenever the flush test holds. */
  function Segmentation(fragments: seq<string>): (r: Segmented)
    ensures !ShouldFlush(r.pending, MaxChar) && |r.pending| < MaxChar
    decreases |fragments|
  {
    if |fragments| == 0 then Segmented([], "")
    else
      var before := Segmentation(fragments[..|fragments| - 1]);
      var buffer := before.pending + fragments[|fragments| - 1];
      if ShouldFlush(buffer, MaxChar) then Segmented(before.segments + [buffer], "")
      else Segmented(before.segments, buffer)
  }

  lemma ConcatAppend(ss: seq<string>, s: string)
    ensures Concat(ss + [s]) == Concat(ss) + s
  {
    assert (ss + [s])[..|ss|] == ss;
  }

  /** No character is lost or reordered: the segments sent, followed by
      the buffer, spell out every fragment received. */
  lemma {:induction false} SegmentationKeepsText(fragments: seq<string>)
    ensures Concat(Segmentation(fragments).segments) + Segmentation(fragments).pending == Concat(fragments)
    decreases |fragments|
  {
    if |fragments| > 0 {
      var init := fragments[..|fragments| - 1];
      var before := Segmentation(init);
      var buffer := before.pending + fragments[|fragments| - 1];
      SegmentationKeepsText(init);
      if ShouldFlush(buffer, MaxChar) {
        ConcatAppend(before.segments, buffer);
      }
    }
  }

  /** Every segment sent was due (non-empty, and long enough or ending in a
      break character), and the buffer left behind is never due. */
  lemma {:induction false} SegmentsAreDue(fragments: seq<string>)
    ensures forall i :: 0 <= i < |Segmentation(fragments).segments| ==>
      ShouldFlush(Segmentation(fragments).segments[i], MaxChar)
    ensures !ShouldFlush(Segmentation(fragments).pending, MaxChar)
    decreases |fragments|
  {
    if |fragments| > 0 {
      var init := fragments[..|fragments| - 1];
      SegmentsAreDue(init);
    }
  }

  /** Text that never reaches the client: the buffer is shorter than
      MaxChar, and when it is not empty the segments sent miss the end of
      the reply. */
  lemma UnsentRemainder(fragments: seq<string>)
    ensures |Segmentation(fragments).pending| < MaxChar
    ensures Segmentation(fragments).pending != "" ==>
      Concat(Segmentation(fragments).segments) != Concat(fragments)
  {
    SegmentsAreDue(fragments);
    SegmentationKeepsText(fragments);
    var s := Segmentation(fragments);
    if s.pending != "" {
      assert |Concat(s.segments)| < |Concat(fragments)|;
    }
  }

  /** A fragment that fills the buffer to MaxChar or more is sent in the
      same segment as the waiting text, unsplit, and the buffer is empty
      afterwards. */
  lemma LongFragmentSentWhole(fragments: seq<string>, x: string)
    requires |Segmentation(fragments).pending + x| >= MaxChar
    ensures var before, after := Segmentation(fragments), Segmentation(fragments + [x]);
      after.segments == before.segments + [before.pending + x] && after.pending == ""
  {
    assert (fragments + [x])[..|fragments|] == fragments;
  }

  /** Fewer than MaxChar fragments "a" are all held back in the buffer. */
  lemma {:induction false} PlainRunHeldBack(k: nat)
    requires k < MaxChar
    ensures Segmentation(seq(k, _ => "a")) == Segmented([], seq(k, _ => 'a'))
  {
    if k > 0 {
      PlainRunHeldBack(k - 1);
      assert seq(k, _ => "a")[..k - 1] == seq(k - 1, _ => "a");
      assert seq(k - 1, _ => 'a') + "a" == seq(k, _ => 'a');
    }
  }

  /** Nineteen fragments "a" then "." are sent as one 20-character
      segment, and nothing is left waiting. */
  lemma BreakAtTwentieth()
    ensures Segmentation(seq(19, _ => "a") + ["."]) == Segmented([seq(19, _ => 'a') + "."], "")
  {
    PlainRunHeldBack(19);
    assert (seq(19, _ => "a") + ["."])[..19] == seq(19, _ => "a");
  }

  /** A break character arriving first is sent on its own at once. */
  lemma LoneBreakSentAtOnce()
    ensures Segmentation(["."]) == Segmented(["."], "")
  {
    assert ["."][..0] == [];
    assert Segmentation([]) == Segmented([], "");
    assert "" + "." == ".";
    assert ShouldFlush(".", MaxChar);
  }

  /** The per-exchange state of the streaming callbacks: the full-reply
      builder, the segment builder, and the messages sent on the session
      during this exchange. */
  class StreamExchange {
    var reply: string
    var segment: string
    var outbox: seq<string>
    ghost var fragments: seq<string>

    ghost predicate Valid()
      reads this
    {
      reply == Concat(fragments) && Segmentation(fragments) == Segmented(outbox, segment)
    }

    constructor ()
      ensures Valid() && fragments == []
      ensures reply == "" && segment == "" && outbox == []
    {
      reply, segment, outbox := "", "", [];
      fragments := [];
    }

    /** The fragment callback: append to both builders, then send and clear
        the segment if it is due. */
    method OnNext(fragment: string)
      requires Valid()
      modifies this
      ensures Valid() && fragments == old(fragments) + [fragment]
      ensures reply == old(reply) + fragment
      ensures var buffer := old(segment) + fragment;
        if ShouldFlush(buffer, MaxChar) then outbox == old(outbox) + [buffer] && segment == ""
        else outbox == old(outbox) && segment == buffer
    {
      ConcatAppend(fragments, fragment);
      fragments := fragments + [fragment];
      assert fragments[..|fragments| - 1] == old(fragments);
      reply := reply + fragment;
      segment := segment + fragment;
      if ShouldFlush(segment, MaxChar) {
        outbox := outbox + [segment];
        segment := "";
      }
    }

    /** The error callback: one failure notice is sent; the waiting segment
        is not. */
    method OnError(notice: string)
      requires Valid()
      modifies this`outbox
      ensures outbox == old(outbox) + [notice]
    {
      outbox := outbox + [notice];
    }
  }
}
