/** The circular output window of inflateBack: literals put into it, matches copied within it. */
module BackWindow {
  import opened MachineInts
  import opened Lz77

  /** Behind the place of the next byte, a window that has gone round holds the last bytes handed on. */
  ghost predicate Behind(w: seq<Byte>, put: nat, written: seq<Byte>) {
    && |w| <= |written|
    && forall i :: put <= i < |w| ==> w[i] == written[|written| - |w| + i]
  }

  lemma BehindPut(w: seq<Byte>, put: nat, written: seq<Byte>, c: Byte)
    requires Behind(w, put, written) && put < |w|
    ensures Behind(w[put := c], put + 1, written)
  {
  }

  lemma BehindAll(w: seq<Byte>, written: seq<Byte>)
    ensures Behind(w, 0, written + w)
  {
  }

  /** The byte offset places back, in a window that has not gone round since. */
  lemma ByteBefore(w: seq<Byte>, put: nat, written: seq<Byte>, offset: nat)
    requires 1 <= offset <= put <= |w|
    ensures (written + w[..put])[|written| + put - offset] == w[put - offset]
  {
  }

  /** The byte offset places back, before the window last went round. */
  lemma ByteBehind(w: seq<Byte>, put: nat, written: seq<Byte>, offset: nat)
    requires put < offset <= |w| && put <= |w| && Behind(w, put, written)
    ensures |written| + put >= offset
    ensures (written + w[..put])[|written| + put - offset] == w[put + |w| - offset]
  {
  }

  class Window {
    const window: array<Byte>
    var put: nat             // where the next byte goes
    var left: nat            // how many places there are from it to the end
    var whave: nat           // the length of the window, once it has been full
    var written: seq<Byte>   // what out() has been handed

    ghost predicate Valid()
      reads this, window
    {
      && 0 < window.Length == put + left && whave <= window.Length
      && (if whave < window.Length then written == [] else Behind(window[..], put, written))
    }

    /** All output so far. */
    ghost function Text(): seq<Byte>
      requires Valid()
      reads this, window
    {
      written + window[..put]
    }

    /** How far back a match may reach. */
    function Reach(): nat
      reads this
    {
      if whave < window.Length then put else window.Length
    }

    lemma Parts()
      requires Valid()
      ensures 0 < window.Length == put + left && whave <= window.Length
      ensures whave < window.Length ==> written == []
      ensures whave >= window.Length ==> Behind(window[..], put, written) && |written| >= window.Length
      ensures Text() == written + window[..put] && |Text()| == |written| + put
      ensures Reach() == (if whave < window.Length then put else window.Length) && Reach() <= |Text()|
    {
    }

    constructor (w: array<Byte>)
      requires w.Length > 0
      ensures Valid() && Text() == [] && window == w
    {
      window, put, left, whave, written := w, 0, w.Length, 0, [];
    }

    /** Makes room for a byte, handing the window on when it is full. */
    method Room()
      requires Valid()
      modifies this
      ensures Valid() && left > 0 && Text() == old(Text()) && Reach() >= old(Reach())
    {
      if left == 0 {
        BehindAll(window[..], written);
        assert window[..put] == window[..];
        put := 0;
        left := window.Length;
        whave := left;
        written := written + window[..];
        assert window[..0] == [];
      }
    }

    /** Notes how much of the window is filled, until it has been full. */
    method NoteFilled()
      requires Valid() && left > 0
      modifies `whave
      ensures Valid() && Text() == old(Text()) && Reach() == old(Reach())
      ensures whave == if old(whave) < window.Length then put else window.Length
    {
      if whave < window.Length {
        whave := window.Length - left;
      }
    }

    /** Puts one byte out. */
    method PutByte(c: Byte)
      requires Valid() && left > 0
      modifies this`put, this`left, window
      ensures Valid() && Text() == old(Text()) + [c] && left == old(left) - 1 && Reach() >= old(Reach())
    {
      ghost var w := window[..];
      window[put] := c;
      assert window[..] == w[put := c];
      if whave >= window.Length { BehindPut(w, put, written, c); }
      put := put + 1;
      left := left - 1;
      assert window[..put] == w[..put - 1] + [c];
    }

    /** Puts out bytes for which there is room. */
    method PutBytes(data: seq<Byte>)
      requires Valid() && |data| <= left
      modifies this`put, this`left, window
      ensures Valid() && Text() == old(Text()) + data && left == old(left) - |data|
    {
      hide *;
      ghost var text := Text();
      assert data[..0] == [] && text + [] == text;
      for i := 0 to |data|
        invariant Valid() && Text() == text + data[..i] && left == old(left) - i
      {
        PutByte(data[i]);
        assert data[..i] + [data[i]] == data[..i + 1];
        assert text + data[..i] + [data[i]] == text + (data[..i] + [data[i]]);
      }
      assert data[..|data|] == data;
    }

    /** The byte a match copies next. */
    lemma Source(from: nat, offset: nat)
      requires Valid() && left > 0 && 1 <= offset <= Reach()
      requires from == put - offset || (from == put + window.Length - offset && from < window.Length)
      ensures from < window.Length && offset <= |Text()| && window[from] == Text()[|Text()| - offset]
    {
      hide *;
      Parts();
      assert window[..][..put] == window[..put];
      if from == put - offset {
        ByteBefore(window[..], put, written, offset);
      } else {
        ByteBehind(window[..], put, written, offset);
      }
    }

    /** Place from holds the byte offset places back, and so do the ones after it for copy bytes. */
    ghost predicate Matches(from: nat, copy: nat, offset: nat)
      reads this
    {
      && 1 <= offset <= Reach()
      && (from == put - offset || (from == put + window.Length - offset && from + copy <= window.Length))
    }

    lemma MatchesIs(from: nat, copy: nat, offset: nat)
      ensures Matches(from, copy, offset)
          <==> && 1 <= offset <= Reach()
               && (from == put - offset || (from == put + window.Length - offset && from + copy <= window.Length))
    {
    }

    /** Puts out copy bytes from place from on, which continue a match if they are the bytes offset places back. */
    method CopyRun(from0: nat, copy0: nat, ghost offset: nat, ghost length: nat)
      requires Valid() && 0 < copy0 <= left && copy0 <= length && from0 + copy0 <= window.Length
      modifies this`put, this`left, window
      ensures Valid() && left == old(left) - copy0 && Reach() >= old(Reach()) && put == old(put) + copy0
      ensures old(Text()) <= Text()
      ensures old(Matches(from0, copy0, offset)) ==>
                CopyBack(Text(), offset, length - copy0) == CopyBack(old(Text()), offset, length)
    {
      hide *;
      var from: nat, copy: nat := from0, copy0;
      ghost var n: nat := length;
      ghost var on := Matches(from0, copy0, offset);
      Parts();
      while copy > 0
        invariant Valid() && copy <= left && n == length - copy0 + copy && from == from0 + copy0 - copy
        invariant left == old(left) - copy0 + copy && put == old(put) + copy0 - copy && Reach() >= old(Reach())
        invariant old(Text()) <= Text()
        invariant on ==> Matches(from, copy, offset)
        invariant on ==> CopyBack(Text(), offset, n) == CopyBack(old(Text()), offset, length)
      {
        Parts();
        MatchesIs(from, copy, offset);
        if on {
          Source(from, offset);
          CopyOne(Text(), offset, n);
        }
        PutByte(window[from]);
        from := from + 1;
        copy := copy - 1;
        n := n - 1;
        Parts();
        MatchesIs(from, copy, offset);
      }
    }

    /** Puts out length bytes from place from on, three at a time. */
    method CopyThrees(from0: nat, length0: nat, ghost offset: nat)
      requires Valid() && length0 <= left && from0 + length0 <= window.Length
      modifies this`put, this`left, window
      ensures Valid() && left == old(left) - length0 && Reach() >= old(Reach()) && old(Text()) <= Text()
      ensures from0 == old(put) - offset && 1 <= offset <= old(Reach()) ==>
                Text() == CopyBack(old(Text()), offset, length0)
    {
      hide *;
      var from: nat, length: nat := from0, length0;
      ghost var on := from0 == put - offset && 1 <= offset <= Reach();
      while length > 2
        invariant Valid() && length <= left && from + length <= window.Length && Reach() >= old(Reach())
        invariant left == old(left) - length0 + length && old(Text()) <= Text()
        invariant on ==> from == put - offset && 1 <= offset <= Reach()
        invariant on ==> CopyBack(Text(), offset, length) == CopyBack(old(Text()), offset, length0)
      {
        MatchesIs(from, 3, offset);
        CopyRun(from, 3, offset, length);
        from := from + 3;
        length := length - 3;
      }
      if length != 0 {
        MatchesIs(from, 1, offset);
        CopyRun(from, 1, offset, length);
        from := from + 1;
        if length > 1 {
          MatchesIs(from, 1, offset);
          CopyRun(from, 1, offset, length - 1);
        }
      }
      CopyNone(Text(), offset);
    }

    /** Copies a match where there is room for all of it, first from the end of the window if it reaches back there. It
        takes the place of the next byte and what is noted as filled together for what there is, so that it may accept a
        distance beyond reach. */
    method CopyFast(dist: nat, len0: nat) returns (ok: bool)
      requires Valid() && 3 <= len0 <= left && dist >= 1
      modifies this`put, this`left, window
      ensures Valid() && Reach() >= old(Reach()) && old(Text()) <= Text() && left >= old(left) - len0
      ensures dist <= old(Reach()) ==> ok && Text() == CopyBack(old(Text()), dist, len0)
      ensures ok <==> dist <= old(put) + whave
      ensures ok ==> left == old(left) - len0
    {
      hide *;
      var len: nat := len0;
      Parts();
      ok := true;
      if dist > put {
        var op: nat := dist - put;
        if op > whave {
          return false;
        }
        var from: nat := window.Length - op;
        if op < len {
          MatchesIs(from, op, dist);
          CopyRun(from, op, dist, len);
          len := len - op;
          Parts();
          CopyThrees(put - dist, len, dist);
        } else {
          MatchesIs(from, len, dist);
          CopyRun(from, len, dist, len);
          CopyNone(Text(), dist);
        }
      } else {
        CopyThrees(put - dist, len, dist);
      }
    }

    /** Copies a match: from before the place of the next byte, or from behind it where the window has gone round. */
    method CopyMatch(offset: nat, length0: nat)
      requires Valid() && 1 <= offset <= Reach() && length0 > 0
      modifies this, window
      ensures Valid() && Text() == CopyBack(old(Text()), offset, length0) && Reach() >= old(Reach())
    {
      hide *;
      var length: nat := length0;
      while length != 0
        invariant Valid() && 1 <= offset <= Reach() && length <= length0 && Reach() >= old(Reach())
        invariant CopyBack(Text(), offset, length) == CopyBack(old(Text()), offset, length0)
      {
        Room();
        Parts();
        var copy: nat, from: nat := window.Length - offset, 0;
        if copy < left {
          from := put + copy;
          copy := left - copy;
        } else {
          from := put - offset;
          copy := left;
        }
        if copy > length {
          copy := length;
        }
        MatchesIs(from, copy, offset);
        CopyRun(from, copy, offset, length);
        length := length - copy;
      }
      CopyNone(Text(), offset);
    }
  }

  lemma CopyOne(out: seq<Byte>, distance: nat, length: nat)
    requires length > 0 && 1 <= distance <= |out|
    ensures CopyBack(out, distance, length) == CopyBack(out + [out[|out| - distance]], distance, length - 1)
  {
  }

  lemma CopyNone(out: seq<Byte>, distance: nat)
    ensures CopyBack(out, distance, 0) == out
  {
  }
}
