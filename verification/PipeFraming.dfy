/** Frame reassembly of packages/shared/src/named-pipe-bus.ts, on already decoded characters. */
module PipeFraming {

  const READY_FRAME := "__nova_bus_ready__"
  const SEPARATOR := '\n'

  predicate IsReady(frame: string) {
    frame == READY_FRAME
  }

  /** The position of the first separator, or -1. */
  function IndexOf(s: string): int {
    if s == "" then -1
    else if s[0] == SEPARATOR then 0
    else if IndexOf(s[1..]) < 0 then -1 else IndexOf(s[1..]) + 1
  }

  lemma {:induction false} IndexOfIsFirst(s: string)
    ensures -1 <= IndexOf(s) < |s|
    ensures IndexOf(s) < 0 <==> SEPARATOR !in s
    ensures IndexOf(s) >= 0 ==> s[IndexOf(s)] == SEPARATOR && SEPARATOR !in s[..IndexOf(s)]
  {
    if s != "" && s[0] != SEPARATOR {
      IndexOfIsFirst(s[1..]);
      assert s == [s[0]] + s[1..];
      var i := IndexOf(s[1..]);
      if i >= 0 {
        assert s[..i + 1] == [s[0]] + s[1..][..i];
      }
    }
  }

  /** What the reader makes of the text it has: the complete frames, and the text after the last separator. */
  function Frames(s: string): seq<string>
    decreases |s|
  {
    IndexOfIsFirst(s);
    if IndexOf(s) < 0 then [] else [s[..IndexOf(s)]] + Frames(s[IndexOf(s) + 1..])
  }

  function Rest(s: string): string
    decreases |s|
  {
    IndexOfIsFirst(s);
    if IndexOf(s) < 0 then s else Rest(s[IndexOf(s) + 1..])
  }

  /** Frames as they are written. */
  function Written(frames: seq<string>): string {
    if frames == [] then "" else frames[0] + [SEPARATOR] + Written(frames[1..])
  }

  function Message(frame: string): seq<string> {
    if IsReady(frame) then [] else [frame]
  }

  /** The frames other than the ready frame. */
  function Messages(frames: seq<string>): seq<string> {
    if frames == [] then [] else Message(frames[0]) + Messages(frames[1..])
  }

  /** The newline split of a text: separator-free frames that, written, give the text up to a
      separator-free rest. */
  ghost predicate IsSplit(s: string, frames: seq<string>, rest: string) {
    && Written(frames) + rest == s
    && SEPARATOR !in rest
    && forall i :: 0 <= i < |frames| ==> SEPARATOR !in frames[i]
  }

  class FrameReader {
    var incoming: string
    var handled: seq<string>  // the frames passed on as messages
    var ready: bool
    ghost var stream: string  // everything received so far

    ghost predicate Valid()
      reads this
    {
      && incoming == Rest(stream)
      && handled == Messages(Frames(stream))
      && (ready <==> exists f :: f in Frames(stream) && IsReady(f))
    }

    constructor ()
      ensures Valid() && stream == ""
    {
      incoming, handled, ready, stream := "", [], false, "";
    }

    /** However the stream is cut into chunks, the frames handled are those of the whole stream. */
    method OnData(chunk: string)
      requires Valid()
      modifies this
      ensures Valid() && stream == old(stream) + chunk
    {
      hide IsReady, Frames, Rest, IndexOf, Messages;
      SplitAppend(stream, chunk);
      ghost var h, r := handled, ready;
      ghost var all, done := incoming + chunk, [];
      MessagesAppend(Frames(stream), Frames(all));
      NoMessages();
      stream := stream + chunk;
      incoming := incoming + chunk;
      var separator := IndexOf(incoming);
      assert done + Frames(incoming) == Frames(incoming);
      while separator >= 0
        invariant separator == IndexOf(incoming)
        invariant Frames(all) == done + Frames(incoming) && Rest(all) == Rest(incoming)
        invariant handled == h + Messages(done) && (ready <==> r || exists f :: f in done && IsReady(f))
        invariant stream == old(stream) + chunk
        decreases |incoming|
      {
        NextFrame(incoming);
        var frame := incoming[..separator];
        incoming := incoming[separator + 1..];
        separator := IndexOf(incoming);
        MessagesAppend(done, [frame]);
        MessageOf(frame);
        assert done + [frame] + Frames(incoming) == done + ([frame] + Frames(incoming));
        done := done + [frame];
        if IsReady(frame) {
          ready := true;
        } else {
          handled := handled + [frame];
        }
      }
      NoFrame(incoming);
      assert done + [] == done;
    }
  }

  lemma NoMessages()
    ensures Messages([]) == []
  {
  }

  lemma NextFrame(s: string)
    requires IndexOf(s) >= 0
    ensures IndexOf(s) < |s|
    ensures Frames(s) == [s[..IndexOf(s)]] + Frames(s[IndexOf(s) + 1..]) && Rest(s) == Rest(s[IndexOf(s) + 1..])
  {
    hide IndexOf;
    IndexOfIsFirst(s);
  }

  lemma NoFrame(s: string)
    requires IndexOf(s) < 0
    ensures Frames(s) == [] && Rest(s) == s
  {
  }

  lemma {:induction false} MessagesAppend(a: seq<string>, b: seq<string>)
    ensures Messages(a + b) == Messages(a) + Messages(b)
  {
    hide Message;
    if a == [] {
      assert a + b == b;
    } else {
      MessagesAppend(a[1..], b);
      assert (a + b)[1..] == a[1..] + b;
      assert Message(a[0]) + (Messages(a[1..]) + Messages(b)) == Message(a[0]) + Messages(a[1..]) + Messages(b);
    }
  }

  lemma MessageOf(frame: string)
    ensures Messages([frame]) == if IsReady(frame) then [] else [frame]
  {
    hide IsReady;
    assert Messages([frame][1..]) == [];
  }

  /** Splitting can be resumed from the rest. */
  lemma {:induction false} SplitAppend(a: string, b: string)
    ensures Frames(a + b) == Frames(a) + Frames(Rest(a) + b)
    ensures Rest(a + b) == Rest(Rest(a) + b)
    decreases |a|
  {
    hide *;
    if IndexOf(a) < 0 {
      NoFrame(a);
    } else {
      NextFrame(a);
      var i := IndexOf(a);
      IndexOfAppend(a, b);
      NextFrame(a + b);
      assert (a + b)[..i] == a[..i] && (a + b)[i + 1..] == a[i + 1..] + b;
      SplitAppend(a[i + 1..], b);
    }
  }

  lemma {:induction false} IndexOfAppend(a: string, b: string)
    requires IndexOf(a) >= 0
    ensures IndexOf(a + b) == IndexOf(a)
  {
    if a[0] != SEPARATOR {
      IndexOfAppend(a[1..], b);
      assert (a + b)[1..] == a[1..] + b;
    }
  }

  lemma {:induction false} FramesAreSplit(s: string)
    ensures IsSplit(s, Frames(s), Rest(s))
    decreases |s|
  {
    hide *;
    if IndexOf(s) < 0 {
      NoFrame(s);
      SplitNothing(s);
    } else {
      NextFrame(s);
      var i := IndexOf(s);
      FramesAreSplit(s[i + 1..]);
      IndexOfIsFirst(s);
      PrependSplit(s[..i], s[i + 1..], Frames(s[i + 1..]), Rest(s[i + 1..]));
      assert s == s[..i] + [SEPARATOR] + s[i + 1..];
    }
  }

  lemma SplitNothing(s: string)
    requires IndexOf(s) < 0
    ensures IsSplit(s, [], s)
  {
    IndexOfIsFirst(s);
    assert Written([]) + s == s;
  }

  lemma PrependSplit(f: string, s: string, frames: seq<string>, rest: string)
    requires IsSplit(s, frames, rest) && SEPARATOR !in f
    ensures IsSplit(f + [SEPARATOR] + s, [f] + frames, rest)
  {
    assert ([f] + frames)[1..] == frames;
    assert f + [SEPARATOR] + Written(frames) + rest == f + [SEPARATOR] + (Written(frames) + rest);
  }

  /** The newline split is unique, so the reader computes it. */
  lemma {:induction false} SplitIsUnique(s: string, frames: seq<string>, rest: string)
    requires IsSplit(s, frames, rest)
    ensures frames == Frames(s) && rest == Rest(s)
    decreases |frames|
  {
    IndexOfIsFirst(s);
    if frames == [] {
      assert s == rest;
    } else {
      var f := frames[0];
      var tail := Written(frames[1..]) + rest;
      assert s == f + [SEPARATOR] + tail;
      FirstSeparator(f, tail);
      assert s[..|f|] == f && s[|f| + 1..] == tail;
      SplitIsUnique(tail, frames[1..], rest);
      assert frames == [f] + frames[1..];
    }
  }

  lemma {:induction false} FirstSeparator(f: string, tail: string)
    requires SEPARATOR !in f
    ensures IndexOf(f + [SEPARATOR] + tail) == |f|
  {
    var s := f + [SEPARATOR] + tail;
    if f != "" {
      FirstSeparator(f[1..], tail);
      assert s[1..] == f[1..] + [SEPARATOR] + tail;
    } else {
      assert s[0] == SEPARATOR;
    }
  }

  ghost function Concat(chunks: seq<string>): string {
    if chunks == [] then "" else Concat(chunks[..|chunks| - 1]) + chunks[|chunks| - 1]
  }

  /** The reader's state over a run of chunks: frames so far and buffer. */
  ghost function Fed(chunks: seq<string>): (seq<string>, string) {
    if chunks == [] then ([], "")
    else
      var (frames, buffer) := Fed(chunks[..|chunks| - 1]);
      var text := buffer + chunks[|chunks| - 1];
      (frames + Frames(text), Rest(text))
  }

  /** Main result: for every way of cutting a stream into chunks, the frames are the newline split of the
      whole stream and the buffer is the text after the last newline. */
  lemma {:induction false} ChunkingIsIrrelevant(chunks: seq<string>)
    ensures Fed(chunks) == (Frames(Concat(chunks)), Rest(Concat(chunks)))
    ensures IsSplit(Concat(chunks), Fed(chunks).0, Fed(chunks).1)
  {
    FramesAreSplit(Concat(chunks));
    if chunks != [] {
      ChunkingIsIrrelevant(chunks[..|chunks| - 1]);
      SplitAppend(Concat(chunks[..|chunks| - 1]), chunks[|chunks| - 1]);
    }
  }

  /** Newline-free frames read back as they were written, however the stream is cut. */
  lemma WrittenReadsBack(frames: seq<string>, chunks: seq<string>)
    requires forall i :: 0 <= i < |frames| ==> SEPARATOR !in frames[i]
    requires Concat(chunks) == Written(frames)
    ensures Fed(chunks) == (frames, "")
  {
    ChunkingIsIrrelevant(chunks);
    assert Written(frames) + "" == Concat(chunks);
    SplitIsUnique(Concat(chunks), frames, "");
  }

  /** All frames but the ready mark are messages, in their order. */
  lemma MessagesAre(frames: seq<string>, a: seq<string>, b: seq<string>)
    ensures (forall i :: 0 <= i < |frames| ==> frames[i] != "__nova_bus_ready__") ==> Messages(frames) == frames
    ensures Messages(["__nova_bus_ready__"]) == [] && Messages(a + b) == Messages(a) + Messages(b)
  {
    MessagesAppend(a, b);
    MessageOf("__nova_bus_ready__");
    if forall i :: 0 <= i < |frames| ==> frames[i] != "__nova_bus_ready__" {
      NoneIsReady(frames);
    }
  }

  lemma {:induction false} NoneIsReady(frames: seq<string>)
    requires forall i :: 0 <= i < |frames| ==> !IsReady(frames[i])
    ensures Messages(frames) == frames
  {
    hide IsReady;
    if frames != [] {
      NoneIsReady(frames[1..]);
      assert frames == [frames[0]] + frames[1..];
    }
  }
}
