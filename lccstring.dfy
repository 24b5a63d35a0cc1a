/**
  The growable, NUL-terminated text buffer `lcc_string_t` of lambda-cc.c
  (lines 40-85).  `used` counts the characters written including the
  terminating NUL; the buffer doubles until the text to append and its NUL
  fit.  Allocation is assumed to succeed.
*/
module LccStrings {

  const NUL: char := '\0'

  /** The C string a buffer holds: its characters before the first NUL. */
  function CString(s: seq<char>): (r: seq<char>)
    ensures |r| <= |s| && r == s[..|r|] && NUL !in r
    ensures |r| < |s| ==> s[|r|] == NUL
  {
    if s == [] || s[0] == NUL then [] else [s[0]] + CString(s[1..])
  }

  /** A buffer whose first NUL is at `p` holds the C string `s[..p]`. */
  lemma CStringAt(s: seq<char>, p: nat)
    requires p < |s| && s[p] == NUL && NUL !in s[..p]
    ensures CString(s) == s[..p]
  {
  }

  /**
    The allocation `lcc_string_appendf` ends with: `allocated` doubled until
    it exceeds `need`.
  */
  function Grown(capacity: nat, need: nat): (r: nat)
    requires capacity >= 1
    ensures need < r && capacity <= r
    ensures r == capacity || (capacity <= need && r <= 2 * need)
    decreases need + 1 - capacity
  {
    if need >= capacity then Grown(2 * capacity, need) else capacity
  }

  /** The text with its last character cut off, as the trailing-space trim of `main` does. */
  function DropLast(s: string): (r: string)
    ensures |s| >= 1 ==> |r| == |s| - 1 && s == r + [s[|s| - 1]]
    ensures |s| == 0 ==> r == s
  {
    if |s| >= 1 then s[..|s| - 1] else s
  }

  class LccString {
    var buffer: array<char>
    var used: nat
    /** `allocated` in lambda-cc.c. */
    var capacity: nat

    /** The allocation holds the text written so far and its NUL. */
    predicate Valid()
      reads this, buffer
    {
      buffer.Length == capacity && 1 <= used < capacity && buffer[used - 1] == NUL
    }

    /** The characters written before the terminating NUL. */
    function Contents(): string
      reads this, buffer
      requires Valid()
    {
      buffer[..used - 1]
    }

    /** The C string the buffer holds, as `system` and `%s` read it. */
    function Text(): string
      reads this, buffer
      requires Valid()
    {
      CString(buffer[..used])
    }

    /** `lcc_string_init`. */
    constructor ()
      ensures Valid() && Contents() == [] && used == 1 && capacity == 64 && fresh(buffer)
    {
      var b := new char[64];
      b[0] := NUL;
      buffer := b;
      used := 1;
      capacity := 64;
    }

    /** `lcc_string_resize`: twice the allocation, the contents carried over. */
    method Resize()
      requires Valid()
      modifies this
      ensures Valid() && fresh(buffer)
      ensures capacity == 2 * old(capacity) && used == old(used)
      ensures buffer[..old(capacity)] == old(buffer[..])
    {
      var request := capacity * 2;
      var b := new char[request];
      forall k | 0 <= k < capacity {
        b[k] := buffer[k];
      }
      buffer := b;
      capacity := request;
    }

    /** `lcc_string_appendf` of an already formatted `s`. */
    method Append(s: string)
      requires Valid() && NUL !in s
      modifies this, buffer
      ensures Valid() && Contents() == old(Contents()) + s
      ensures used == old(used) + |s| && capacity == Grown(old(capacity), old(used) + |s|)
      ensures buffer == old(buffer) || fresh(buffer)
    {
      Reserve(|s|);
      Store(s);
    }

    /** The resize loop of `lcc_string_appendf`: room for `count` more characters and the NUL. */
    method Reserve(count: nat)
      requires Valid()
      modifies this
      ensures Valid() && used == old(used) && Contents() == old(Contents())
      ensures capacity == Grown(old(capacity), old(used) + count) && used + count < capacity
      ensures buffer == old(buffer) || fresh(buffer)
    {
      while used + count >= capacity
        invariant Valid() && used == old(used) && Contents() == old(Contents())
        invariant buffer == old(buffer) || fresh(buffer)
        invariant Grown(capacity, used + count) == Grown(old(capacity), old(used) + count)
        decreases used + count - capacity
      {
        Resize();
      }
    }

    /** The `vsnprintf` into the buffer: `s` and a NUL over the old terminator. */
    method Store(s: string)
      requires Valid() && used + |s| < capacity
      modifies this, buffer
      ensures Valid() && Contents() == old(Contents()) + s
      ensures used == old(used) + |s| && capacity == old(capacity) && buffer == old(buffer)
    {
      var base := used - 1;
      ghost var before := buffer[..base];
      forall k | base <= k < base + |s| {
        buffer[k] := s[k - base];
      }
      buffer[base + |s|] := NUL;
      ghost var after := buffer[..base + |s|];
      assert after == before + s by {
        assert |after| == |before + s|;
        forall k | 0 <= k < |after|
          ensures after[k] == (before + s)[k]
        {
          if k < base {
            assert after[k] == before[k];
          } else {
            assert after[k] == s[k - base];
          }
        }
      }
      used := used + |s|;
    }

    /** `buffer[used - 2] = '\0'` when `used >= 2`: the C string loses its last character. */
    method TrimLast()
      requires Valid()
      modifies buffer
      ensures Valid() && Contents() == (if used >= 2 then old(Contents())[used - 2 := NUL] else old(Contents()))
      ensures NUL !in old(Contents()) ==> Text() == DropLast(old(Contents()))
    {
      if used >= 2 {
        buffer[used - 2] := NUL;
      }
      if NUL !in old(Contents()) {
        CStringAt(buffer[..used], if used >= 2 then used - 2 else 0);
      }
    }

    /** Without a NUL among the contents, the C string is the contents. */
    lemma TextIsContents()
      requires Valid() && NUL !in Contents()
      ensures Text() == Contents()
    {
      CStringAt(buffer[..used], used - 1);
    }
  }
}
