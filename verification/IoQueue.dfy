/** The bounded ring buffer behind keyboard and pipes, and the pipe's reads and
    writes over it. */
module IoQueues {
  import opened Sequences

  const BUFSIZE: nat := 64

  function NextPos(pos: nat): nat {
    (pos + 1) % BUFSIZE
  }

  class IoQueue {
    const buf: array<char>
    /** Where the next byte goes in, and where the next comes out. */
    var head: nat
    var tail: nat
    /** Every byte ever put and ever got, oldest first. */
    ghost var put: seq<char>
    ghost var got: seq<char>

    /** The queued bytes, oldest first. */
    ghost var queue: seq<char>

    /** The queue as it lies in the buffer, across the wrap-around. */
    ghost function Ring(): seq<char>
      requires buf.Length == BUFSIZE && head < BUFSIZE && tail < BUFSIZE
      reads this, buf
    {
      if head >= tail then buf[tail..head] else buf[tail..] + buf[..head]
    }

    /** The ring is a FIFO of at most 63 bytes: what was put is what was got
        followed by what is queued. */
    ghost predicate Valid()
      reads this, buf
    {
      && buf.Length == BUFSIZE && head < BUFSIZE && tail < BUFSIZE
      && queue == Ring() && |queue| <= 63 && put == got + queue
    }

    constructor ()
      ensures Valid() && fresh(buf) && put == [] && got == [] && queue == []
    {
      buf := new char[BUFSIZE];
      head, tail := 0, 0;
      put, got, queue := [], [], [];
    }

    predicate Full()
      requires Valid()
      reads this, buf
      ensures Full() <==> |queue| == 63
    {
      NextPos(head) == tail
    }

    predicate Empty()
      requires Valid()
      reads this, buf
      ensures Empty() <==> queue == []
    {
      head == tail
    }

    method Length() returns (len: nat)
      requires Valid()
      ensures len == |queue|
    {
      if head >= tail {
        len := head - tail;
      } else {
        len := BUFSIZE - (tail - head);
      }
    }

    /** `blocked` is the wait on a full ring, taken before anything changes. */
    method PutChar(byte: char) returns (blocked: bool)
      requires Valid()
      modifies this, buf
      ensures Valid() && got == old(got)
      ensures blocked == (|old(queue)| == 63)
      ensures blocked ==> queue == old(queue) && put == old(put)
      ensures !blocked ==> queue == old(queue) + [byte] && put == old(put) + [byte]
    {
      if Full() {
        return true;
      }
      buf[head] := byte;
      head := NextPos(head);
      assert Ring() == queue + [byte];
      Assoc(got, queue, [byte]);
      put, queue := put + [byte], queue + [byte];
      return false;
    }

    method GetChar() returns (blocked: bool, byte: char)
      requires Valid()
      modifies this
      ensures Valid() && put == old(put)
      ensures blocked == (old(queue) == [])
      ensures blocked ==> queue == [] && got == old(got)
      ensures !blocked ==> old(queue) == [byte] + queue && got == old(got) + [byte]
    {
      if Empty() {
        return true, buf[tail];
      }
      byte := buf[tail];
      tail := NextPos(tail);
      assert queue == [byte] + Ring();
      Assoc(got, [byte], Ring());
      got, queue := got + [byte], queue[1..];
      return false, byte;
    }

    /** A pipe read takes the oldest bytes, as many as there are up to `count`,
        and never reaches the wait. */
    method PipeRead(count: nat) returns (blocked: bool, out: seq<char>)
      requires Valid()
      modifies this
      ensures Valid() && !blocked && put == old(put) && got == old(got) + out
      ensures out == old(queue)[..Min(count, |old(queue)|)]
      ensures old(queue) == out + queue
    {
      var len := Length();
      var size := if len > count then count else len;
      out := [];
      while |out| < size
        invariant Valid() && |out| <= size <= |old(queue)| && put == old(put)
        invariant old(queue) == out + queue && got == old(got) + out
        decreases size - |out|
      {
        var wait, byte := GetChar();
        Assoc(out, [byte], queue);
        Assoc(old(got), out, [byte]);
        out := out + [byte];
      }
      return false, out;
    }

    /** A pipe write takes the ring for one byte larger than it is: it reaches
        the wait exactly when the bytes do not all fit, after filling it. */
    method PipeWrite(data: seq<char>) returns (blocked: bool, written: nat)
      requires Valid()
      modifies this, buf
      ensures Valid() && got == old(got)
      ensures blocked <==> |data| > 63 - |old(queue)|
      ensures written == Min(|data|, 63 - |old(queue)|)
      ensures queue == old(queue) + data[..written] && put == old(put) + data[..written]
    {
      var len := Length();
      var left := BUFSIZE - len;
      var size := if left > |data| then |data| else left;
      written := 0;
      ghost var done := data[..0];
      AppendNothing(queue);
      AppendNothing(put);
      while written < size
        invariant Valid() && written <= size && written <= 63 - |old(queue)| && got == old(got)
        invariant done == data[..written]
        invariant queue == old(queue) + done && put == old(put) + done
        decreases size - written
      {
        var wait := PutNext(data[written], done, old(queue), old(put));
        if wait {
          return true, written;
        }
        SliceMore(data, written, written + 1);
        done := done + [data[written]];
        written := written + 1;
      }
      return false, written;
    }

    method PutNext(byte: char, ghost done: seq<char>, ghost before: seq<char>, ghost sent: seq<char>)
        returns (blocked: bool)
      requires Valid() && queue == before + done && put == sent + done
      modifies this, buf
      ensures Valid() && got == old(got) && blocked == (|old(queue)| == 63)
      ensures blocked ==> queue == old(queue) && put == old(put)
      ensures !blocked ==> queue == before + (done + [byte]) && put == sent + (done + [byte])
    {
      blocked := PutChar(byte);
      Assoc(before, done, [byte]);
      Assoc(sent, done, [byte]);
    }
  }
}
