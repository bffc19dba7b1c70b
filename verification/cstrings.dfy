/**
 * The C string functions the dongles use on their byte buffers.
 * A byte is modelled as a `char`; NUL is '\0'.
 */
module CStrings {
  import opened Wrappers

  const NUL: char := '\0'

  /** The C string held by a buffer: every byte before its first NUL. */
  function CStr(s: seq<char>): (r: seq<char>)
    ensures |r| <= |s| && r == s[..|r|]
    ensures NUL !in r
    ensures |r| < |s| ==> s[|r|] == NUL
  {
    if |s| == 0 || s[0] == NUL then [] else [s[0]] + CStr(s[1..])
  }

  /**
   * `strchr(s, c)`: the index of the first `c` of the C string held by `s`,
   * or None where the C function returns NULL.
   */
  function FindChar(s: seq<char>, c: char): (r: Option<nat>)
    requires c != NUL
    ensures r.Some? ==> r.value < |s| && s[r.value] == c
    ensures r.Some? ==> forall j :: 0 <= j < r.value ==> s[j] != c && s[j] != NUL
    ensures r.None? <==> c !in CStr(s)
  {
    if |s| == 0 || s[0] == NUL then None
    else if s[0] == c then Some(0)
    else match FindChar(s[1..], c)
      case None => None
      case Some(i) => Some(i + 1)
  }

  /** The byte at index `i`; a read past the end of the buffer reads NUL. */
  function At(s: seq<char>, i: nat): char {
    if i < |s| then s[i] else NUL
  }

  /** `needle` occurs somewhere in `hay`, scanning from the front as `strstr` does. */
  predicate Occurs(hay: seq<char>, needle: seq<char>)
    decreases |hay|
  {
    |needle| <= |hay| && (hay[..|needle|] == needle || Occurs(hay[1..], needle))
  }

  /** `needle` sits in `hay` at offset `i`. */
  predicate MatchAt(hay: seq<char>, needle: seq<char>, i: nat) {
    i + |needle| <= |hay| && hay[i..i + |needle|] == needle
  }

  /** The scan of Occurs finds `needle` exactly when it sits at some offset of `hay`. */
  lemma {:induction false} OccursAt(hay: seq<char>, needle: seq<char>)
    ensures Occurs(hay, needle) <==> exists i: nat :: MatchAt(hay, needle, i)
    decreases |hay|
  {
    if MatchAt(hay, needle, 0) {
      assert hay[..|needle|] == hay[0..0 + |needle|];
    } else if |needle| < |hay| {
      OccursAt(hay[1..], needle);
      forall i: nat | MatchAt(hay, needle, i)
        ensures MatchAt(hay[1..], needle, i - 1)
      {
        assert hay[1..][i - 1..i - 1 + |needle|] == hay[i..i + |needle|];
      }
      if Occurs(hay[1..], needle) {
        var i: nat :| MatchAt(hay[1..], needle, i);
        assert hay[i + 1..i + 1 + |needle|] == hay[1..][i..i + |needle|];
        assert MatchAt(hay, needle, i + 1);
      }
    } else {
      if |needle| == |hay| {
        assert hay[..|needle|] == hay[0..0 + |needle|];
      }
      forall i: nat | MatchAt(hay, needle, i) ensures i == 0 { }
    }
  }

  /** `strstr`: `needle` occurs in the C string held by `hay`. */
  predicate ContainsCStr(hay: seq<char>, needle: seq<char>) {
    Occurs(CStr(hay), needle)
  }

  /** Finding `needle` in a buffer that starts with it. */
  lemma ContainsPrefix(needle: seq<char>, rest: seq<char>)
    requires NUL !in needle
    ensures ContainsCStr(needle + rest, needle)
  {
    var s := needle + rest;
    CStrKeepsPrefix(needle, rest);
    OccursAt(CStr(s), needle);
    assert MatchAt(CStr(s), needle, 0);
  }

  /** A NUL-free prefix survives in the C string of the buffer. */
  lemma {:induction false} CStrKeepsPrefix(pre: seq<char>, rest: seq<char>)
    requires NUL !in pre
    ensures |pre| <= |CStr(pre + rest)| && CStr(pre + rest)[..|pre|] == pre
  {
    if pre != [] {
      assert (pre + rest)[1..] == pre[1..] + rest;
      CStrKeepsPrefix(pre[1..], rest);
    }
  }

  /** A NUL-terminated string is its own C string. */
  lemma {:induction false} CStrTerminated(pre: seq<char>)
    requires NUL !in pre
    ensures CStr(pre + [NUL]) == pre
  {
    if pre != [] {
      assert (pre + [NUL])[1..] == pre[1..] + [NUL];
      CStrTerminated(pre[1..]);
    }
  }

  /** strchr skips a prefix that holds neither `c` nor NUL. */
  lemma {:induction false} FindCharSkips(pre: seq<char>, rest: seq<char>, c: char)
    requires c != NUL && c !in pre && NUL !in pre
    ensures FindChar(pre + rest, c) ==
            match FindChar(rest, c)
            case None => None
            case Some(i) => Some(|pre| + i)
  {
    if pre != [] {
      assert (pre + rest)[1..] == pre[1..] + rest;
      FindCharSkips(pre[1..], rest, c);
    } else {
      assert pre + rest == rest;
    }
  }

  /** strchr stops at the first `c` when no NUL comes before it. */
  lemma FindCharAt(s: seq<char>, k: nat, c: char)
    requires c != NUL && k < |s| && s[k] == c
    requires c !in s[..k] && NUL !in s[..k]
    ensures FindChar(s, c) == Some(k)
  {
    assert s == s[..k] + s[k..];
    FindCharSkips(s[..k], s[k..], c);
  }

  /** strchr reports NULL for a byte the buffer does not hold. */
  lemma FindCharAbsent(s: seq<char>, c: char)
    requires c != NUL && c !in s
    ensures FindChar(s, c) == None
  {
    var r := CStr(s);
    assert forall j :: 0 <= j < |r| ==> r[j] == s[j];
  }

  /** `n` NUL bytes: the cleared tail of a buffer. */
  function Zeros(n: nat): (z: seq<char>)
    ensures |z| == n && forall i :: 0 <= i < n ==> z[i] == NUL
  {
    seq(n, _ => NUL)
  }

  /** strchr cannot see past the end of the C string, so NUL padding changes nothing. */
  lemma {:induction false} FindCharPadded(s: seq<char>, n: nat, c: char)
    requires c != NUL
    ensures FindChar(s + Zeros(n), c) == FindChar(s, c)
  {
    if s != [] && s[0] != NUL && s[0] != c {
      assert (s + Zeros(n))[1..] == s[1..] + Zeros(n);
      FindCharPadded(s[1..], n, c);
    }
  }
}
