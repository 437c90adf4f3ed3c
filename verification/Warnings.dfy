/**
  The warnings buffer: a fixed block of zeroed memory to which messages are appended
  whole, each with its terminating zero, and which is read back at exit.
 */
module Warnings {

  type Bytes = seq<bv8>

  /** A C string: no zero byte, and here never empty. */
  predicate Message(m: Bytes) { m != [] && forall i :: 0 <= i < |m| ==> m[i] != 0 }

  predicate Messages(ms: seq<Bytes>) { forall i :: 0 <= i < |ms| ==> Message(ms[i]) }

  /** Bytes that messages take, terminators included. */
  function Used(ms: seq<Bytes>): nat {
    if ms == [] then 0 else Used(ms[..|ms| - 1]) + |ms[|ms| - 1]| + 1
  }

  /** How many messages, from the first on, fit. */
  function Fitting(ms: seq<Bytes>, size: nat): (k: nat)
    ensures k <= |ms|
  {
    if ms == [] then 0
    else
      var k := Fitting(ms[..|ms| - 1], size);
      if k == |ms| - 1 && Used(ms) <= size then |ms| else k
  }

  /** The memory that holds these messages. */
  function Flat(ms: seq<Bytes>): (f: Bytes)
    ensures |f| == Used(ms)
  {
    if ms == [] then [] else Flat(ms[..|ms| - 1]) + ms[|ms| - 1] + [0]
  }

  lemma {:induction false} FittingPrefix(ms: seq<Bytes>, size: nat, k: nat)
    requires k <= |ms|
    ensures k <= Fitting(ms, size) <==> Used(ms[..k]) <= size
  {
    if ms == [] {
      assert ms[..0] == [];
    } else {
      var n := |ms| - 1;
      if k <= n {
        FittingPrefix(ms[..n], size, k);
        assert ms[..n][..k] == ms[..k];
      } else {
        FittingPrefix(ms[..n], size, n);
        assert ms[..n][..n] == ms[..n] && ms[..k] == ms;
      }
    }
  }

  // ---------------------------------------------------------------------------
  // The buffer

  class Buffer {
    const mem: array<bv8>
    var offset: nat

    /** The memory is the first messages that fit, and zeros. After a message that
        does not fit the offset is past the end, so that nothing fits any more. */
    ghost predicate Holds(ms: seq<Bytes>)
      reads this, mem
    {
      var k := Fitting(ms, mem.Length);
      && Messages(ms) && offset == Used(ms)
      && Used(ms[..k]) <= mem.Length
      && mem[..Used(ms[..k])] == Flat(ms[..k])
      && forall i :: Used(ms[..k]) <= i < mem.Length ==> mem[i] == 0
    }

    constructor (size: nat)
      ensures fresh(mem) && mem.Length == size && Holds([])
    {
      mem := new bv8[size](_ => 0);
      offset := 0;
    }

    /** string_append: the length of what should have been written is returned even
        when nothing was. */
    method StringAppend(str: Bytes) returns (written: nat)
      modifies mem
      ensures written == |str| + 1
      ensures mem.Length > offset + written - 1 ==>
                mem[..] == old(mem[..offset]) + str + [0] + old(mem[offset + written..])
      ensures mem.Length <= offset + written - 1 ==> mem[..] == old(mem[..])
    {
      written := |str| + 1;
      if mem.Length > offset + written - 1 {
        forall i | 0 <= i < written { mem[offset + i] := if i < |str| then str[i] else 0; }
        assert mem[..offset] == old(mem[..offset]);
        assert mem[offset..offset + |str|] == str;
        assert mem[offset + written..] == old(mem[offset + written..]);
        assert mem[..] == mem[..offset] + mem[offset..offset + |str|] + [mem[offset + |str|]] + mem[offset + written..];
      }
    }

    /** What msgv does with a warning. */
    method Warn(str: Bytes, ghost ms: seq<Bytes>)
      requires Holds(ms) && Message(str)
      modifies this, mem
      ensures Holds(ms + [str])
    {
      ghost var all, k := ms + [str], Fitting(ms, mem.Length);
      assert all[..|ms|] == ms && all[..k] == ms[..k];
      FittingPrefix(ms, mem.Length, |ms|);
      assert ms[..|ms|] == ms && all[..|all|] == all;
      ghost var before := mem[..];
      var written := StringAppend(str);
      offset := offset + written;
      if k == |ms| && Used(all) <= mem.Length {
        assert before[..Used(ms)] == Flat(ms);
        assert mem[..Used(all)] == Flat(all);
      } else {
        FitsNoMore(ms, str, mem.Length);
        assert mem[..] == before;
        assert mem[..Used(ms[..k])] == before[..Used(ms[..k])];
      }
    }

    /** buf_strings_count */
    method StringsCount(ghost ms: seq<Bytes>) returns (count: nat)
      requires Holds(ms) && mem.Length > 0
      ensures count == Fitting(ms, mem.Length)
    {
      ghost var kept := Kept(ms, mem.Length);
      KeptStart(ms, mem.Length);
      count := 0;
      if kept != [] { AtByte(ms, 0, 0); }
      if mem[0] != 0 {
        var i := 0;
        while i < mem.Length
          invariant 0 <= i <= mem.Length
          invariant count <= |kept| && (count == |kept| ==> i == mem.Length)
          invariant count < |kept| ==> Used(kept[..count]) <= i <= Used(kept[..count]) + |kept[count]|
        {
          AtByte(ms, count, i - Used(kept[..count]));
          if mem[i] == 0 {
            count := count + 1;
            KeptNext(ms, mem.Length, count);
            if count < |kept| { AtByte(ms, count, 0); }
            if i < mem.Length - 1 && mem[i + 1] == 0 { break; }
          }
          i := i + 1;
        }
        if count < |kept| { AtByte(ms, count, |kept[count]|); }
      }
    }

    /** What the memory holds at byte `p` of kept message `j`, and that it is there. */
    lemma AtByte(ms: seq<Bytes>, j: nat, p: nat)
      requires Holds(ms) && j < |Kept(ms, mem.Length)| && p <= |Kept(ms, mem.Length)[j]|
      ensures var kept := Kept(ms, mem.Length);
              && Used(kept[..j]) + p < mem.Length
              && mem[Used(kept[..j]) + p] == if p < |kept[j]| then kept[j][p] else 0
    {
      var kept := Kept(ms, mem.Length);
      FlatAt(kept, j, p);
      assert mem[..Used(kept)][Used(kept[..j]) + p] == mem[Used(kept[..j]) + p];
    }

    /** strlen */
    method StrLen(start: nat, ghost ms: seq<Bytes>, ghost j: nat) returns (len: nat)
      requires Holds(ms) && j < |Kept(ms, mem.Length)| && start == Used(Kept(ms, mem.Length)[..j])
      ensures len == |Kept(ms, mem.Length)[j]| && start + len < mem.Length
      ensures mem[start..start + len] == Kept(ms, mem.Length)[j]
    {
      ghost var m := Kept(ms, mem.Length)[j];
      len := 0;
      AtByte(ms, j, |m|);
      AtByte(ms, j, 0);
      while mem[start + len] != 0
        invariant 0 <= len <= |m| && start + |m| < mem.Length
        invariant mem[start..start + len] == m[..len]
        invariant mem[start + len] == if len < |m| then m[len] else 0
        decreases |m| - len
      {
        len := len + 1;
        AtByte(ms, j, len);
      }
    }

    /** The loop of warnings_reprint; `overrun` when it looks past the buffer's end. */
    method Reprint(ghost ms: seq<Bytes>) returns (out: seq<Bytes>, overrun: bool)
      requires Holds(ms) && mem.Length > 0
      ensures out == Kept(ms, mem.Length)
      ensures overrun <==> Used(Kept(ms, mem.Length)) == mem.Length
    {
      ghost var kept := Kept(ms, mem.Length);
      KeptStart(ms, mem.Length);
      var offset := 0;
      out, overrun := [], false;
      while true
        invariant |out| <= |kept| && out == kept[..|out|] && offset == Used(kept[..|out|])
        invariant !overrun
        decreases |kept| - |out|
      {
        KeptNext(ms, mem.Length, |out|);
        if |out| < |kept| { AtByte(ms, |out|, 0); }
        if offset >= mem.Length { return out, true; }
        if !(mem[offset] != 0 || (offset < mem.Length - 1 && mem[offset + 1] != 0)) { break; }
        var len := StrLen(offset, ms, |out|);
        out := out + [mem[offset..offset + len]];
        offset := offset + len + 1;
      }
      assert |out| == |kept|;
    }
  }

  lemma FitsNoMore(ms: seq<Bytes>, str: Bytes, size: nat)
    requires Fitting(ms, size) < |ms| || Used(ms + [str]) > size
    ensures Fitting(ms + [str], size) == Fitting(ms, size)
    ensures Used(ms) + |str| + 1 > size
  {
    assert (ms + [str])[..|ms|] == ms;
    FittingPrefix(ms, size, |ms|);
    assert ms[..|ms|] == ms;
  }

  /** The messages that fit. */
  function Kept(ms: seq<Bytes>, size: nat): seq<Bytes> { ms[..Fitting(ms, size)] }

  lemma {:induction false} FlatAt(ms: seq<Bytes>, j: nat, p: nat)
    requires j < |ms| && p <= |ms[j]|
    ensures Used(ms[..j]) + p < Used(ms)
    ensures Flat(ms)[Used(ms[..j]) + p] == if p < |ms[j]| then ms[j][p] else 0
  {
    var n := |ms| - 1;
    if j < n {
      FlatAt(ms[..n], j, p);
      assert ms[..n][..j] == ms[..j];
    }
  }

  lemma KeptStart(ms: seq<Bytes>, size: nat)
    ensures Used(Kept(ms, size)[..0]) == 0
    ensures Kept(ms, size) == [] ==> Used(Kept(ms, size)) == 0
  {
  }

  /** Where the message after the first `j` starts. */
  lemma KeptNext(ms: seq<Bytes>, size: nat, j: nat)
    requires j <= |Kept(ms, size)|
    ensures var kept := Kept(ms, size);
            && (j > 0 ==> Used(kept[..j]) == Used(kept[..j - 1]) + |kept[j - 1]| + 1)
            && (j == |kept| ==> kept[..j] == kept)
  {
    var kept := Kept(ms, size);
    if j > 0 { assert kept[..j][..j - 1] == kept[..j - 1]; }
  }
}
