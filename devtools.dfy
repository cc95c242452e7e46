/**
 * The two pieces of editor logic that are not UI: `InsertSpaces`, which turns a CamelCase type
 * name into a spaced label, and the search for the index of the playing clip among a sheet's
 * clip names.
 */
module DevTools {
  import opened Common

  // ---------------------------------------------------------------- InsertSpaces

  /** `std::isupper` in the default "C" locale. */
  predicate IsUpper(c: char)
  {
    'A' <= c <= 'Z'
  }

  /** What the loop appends for input position `i`: a space first when `i > 0` and `s[i]` is upper case. */
  function Piece(s: string, i: nat): string
    requires i < |s|
  {
    if i > 0 && IsUpper(s[i]) then [' ', s[i]] else [s[i]]
  }

  /** The result after the loop has visited the first `n` characters of `s`. */
  function Spaced(s: string, n: nat): string
    requires n <= |s|
  {
    if n == 0 then [] else Spaced(s, n - 1) + Piece(s, n - 1)
  }

  /** The number of upper-case characters among `s[1..n]`: the spaces the first `n` steps insert. */
  function UpperCount(s: string, n: nat): nat
    requires n <= |s|
  {
    if n == 0 then 0
    else UpperCount(s, n - 1) + (if n - 1 > 0 && IsUpper(s[n - 1]) then 1 else 0)
  }

  /** Where input character `s[i]` lands in the output: after `i` characters and the spaces inserted up to it. */
  function OutIndex(s: string, i: nat): nat
    requires i < |s|
  {
    i + UpperCount(s, i + 1)
  }

  /**
   * Deletes the inserted spaces: reading from the back, an upper-case character directly after a
   * space takes that one space with it; every other character stays.
   */
  function Unspace(t: string): string
  {
    if t == [] then []
    else if |t| >= 2 && IsUpper(t[|t| - 1]) && t[|t| - 2] == ' ' then Unspace(t[..|t| - 2]) + [t[|t| - 1]]
    else Unspace(t[..|t| - 1]) + [t[|t| - 1]]
  }

  /** The output is the input plus one space per upper-case character after the first position. */
  lemma {:induction false} SpacedLength(s: string, n: nat)
    requires n <= |s|
    ensures |Spaced(s, n)| == n + UpperCount(s, n)
  {
    if n > 0 {
      SpacedLength(s, n - 1);
    }
  }

  /** Deleting the inserted spaces gives back the characters read so far, in order. */
  lemma {:induction false} UnspaceSpaced(s: string, n: nat)
    requires n <= |s|
    ensures Unspace(Spaced(s, n)) == s[..n]
  {
    if n > 0 {
      UnspaceSpaced(s, n - 1);
      if n - 1 > 0 && IsUpper(s[n - 1]) {
        UnspaceSpacedCapital(Spaced(s, n - 1), s[n - 1]);
      } else {
        UnspaceOther(Spaced(s, n - 1), s[n - 1]);
      }
      PrefixGrows(s, n);
    }
  }

  /** The first `n` characters are the first `n - 1` followed by the `n`-th. */
  lemma PrefixGrows(s: string, n: nat)
    requires 0 < n <= |s|
    ensures s[..n] == s[..n - 1] + [s[n - 1]]
  {
  }

  /** A space followed by a capital at the end reads back as the capital alone. */
  lemma UnspaceSpacedCapital(prev: string, c: char)
    requires IsUpper(c)
    ensures Unspace(prev + [' ', c]) == Unspace(prev) + [c]
  {
    var t := prev + [' ', c];
    assert t[..|t| - 2] == prev;
  }

  /** Any other last character reads back as itself, with what comes before it unchanged. */
  lemma UnspaceOther(prev: string, c: char)
    requires !IsUpper(c) || prev == []
    ensures Unspace(prev + [c]) == Unspace(prev) + [c]
  {
    var t := prev + [c];
    assert t[..|t| - 1] == prev;
  }

  /**
   * Position by position: every input character appears at `OutIndex`; an upper-case character
   * after the first position has a space right before it, and any other character follows the
   * previous input character directly. In particular the output starts with `s[0]`.
   */
  lemma {:induction false} SpacedAt(s: string, n: nat, i: nat)
    requires i < n <= |s|
    ensures OutIndex(s, i) < |Spaced(s, n)| && Spaced(s, n)[OutIndex(s, i)] == s[i]
    ensures i == 0 ==> OutIndex(s, i) == 0
    ensures i > 0 && IsUpper(s[i]) ==> OutIndex(s, i) == OutIndex(s, i - 1) + 2 && Spaced(s, n)[OutIndex(s, i) - 1] == ' '
    ensures i > 0 && !IsUpper(s[i]) ==> OutIndex(s, i) == OutIndex(s, i - 1) + 1
  {
    SpacedLength(s, n - 1);
    if i < n - 1 {
      SpacedAt(s, n - 1, i);
    } else if i > 0 {
      SpacedLength(s, i);
    }
  }

  /** `InsertSpaces(str)`: one pass that copies each character, with a space before every inner capital. */
  method InsertSpaces(s: string) returns (r: string)
    ensures r == Spaced(s, |s|)
    ensures |r| == |s| + UpperCount(s, |s|)
    ensures Unspace(r) == s
    ensures s == [] <==> r == []
    ensures s != [] ==> |r| > 0 && r[0] == s[0]
  {
    r := [];
    var i := 0;
    while i < |s|
      invariant 0 <= i <= |s|
      invariant r == Spaced(s, i)
    {
      if i > 0 && IsUpper(s[i]) {
        r := r + [' '];
      }
      r := r + [s[i]];
      i := i + 1;
    }
    SpacedLength(s, |s|);
    UnspaceSpaced(s, |s|);
    if s != [] {
      SpacedAt(s, |s|, 0);
    }
  }

  // ---------------------------------------------------------------- the clip-index search

  /** The first index holding `name`, or `|names|` when none does. */
  function FirstIndexOf(names: seq<string>, name: string): (r: nat)
    ensures r <= |names|
    ensures r < |names| ==> names[r] == name
    ensures forall j :: 0 <= j < r ==> names[j] != name
  {
    if names == [] then 0
    else if names[0] == name then 0
    else 1 + FirstIndexOf(names[1..], name)
  }

  /** The combo's selection: the first match, stored into an `int`, or 0 when nothing matches. */
  function CurrentItem(names: seq<string>, name: string): int32
  {
    var k := FirstIndexOf(names, name);
    if k < |names| then Int32Of(k) else 0
  }

  /** For any realistic number of clips the selection is the first matching index, or 0 with no match. */
  lemma CurrentItemIsFirstMatch(names: seq<string>, name: string)
    requires |names| < 0x8000_0000
    ensures var r := CurrentItem(names, name);
      && 0 <= r < (if names == [] then 1 else |names|)
      && (name in names ==> names[r] == name && forall j :: 0 <= j < r ==> names[j] != name)
      && (name !in names ==> r == 0)
  {
    var k := FirstIndexOf(names, name);
    if name in names {
      var w :| 0 <= w < |names| && names[w] == name;
      assert k <= w;
    }
  }

  /** Reading the clip's name through a null `Clip`. */
  datatype Fault = NullClipDereference

  /**
   * The search as written: `Clip->Name` is read on every iteration, before the null check on
   * `Clip` further down, so a component with no clip and a sheet with clips faults. `clip` is the
   * clip's name, or `None` when `Clip` is null.
   */
  method SelectedClipIndexAsWritten(clipNames: seq<string>, clip: Option<string>) returns (r: Result<int32, Fault>)
    ensures r.Failure? <==> clip.None? && clipNames != []
    ensures r.Failure? ==> r.error == NullClipDereference
    ensures clip.Some? ==> r == Success(CurrentItem(clipNames, clip.value))
    ensures clip.None? && clipNames == [] ==> r == Success(0)
  {
    var currentItem: int32 := 0;
    var i := 0;
    while i < |clipNames|
      invariant 0 <= i <= |clipNames|
      invariant clip.None? ==> i == 0
      invariant clip.Some? ==> i <= FirstIndexOf(clipNames, clip.value)
    {
      if clip.None? {
        return Failure(NullClipDereference);
      }
      if clipNames[i] == clip.value {
        currentItem := Int32Of(i);
        break;
      }
      i := i + 1;
    }
    r := Success(currentItem);
  }

  /** A sheet with a clip and a component with no clip: the search as written faults. */
  method NullClipFaults() returns (r: Result<int32, Fault>)
    ensures r == Failure(NullClipDereference)
  {
    var clipNames: seq<string> := ["Idle"];
    r := SelectedClipIndexAsWritten(clipNames, None);
  }

  /**
   * The search guarded the way the panel later guards its use of `Clip`: with no clip the
   * selection stays 0; otherwise it is the first matching index, or 0.
   */
  method SelectedClipIndex(clipNames: seq<string>, clip: Option<string>) returns (currentItem: int32)
    ensures clip.None? ==> currentItem == 0
    ensures clip.Some? ==> currentItem == CurrentItem(clipNames, clip.value)
  {
    currentItem := 0;
    if clip.None? {
      return;
    }
    var i := 0;
    while i < |clipNames|
      invariant 0 <= i <= |clipNames|
      invariant i <= FirstIndexOf(clipNames, clip.value)
    {
      if clipNames[i] == clip.value {
        currentItem := Int32Of(i);
        break;
      }
      i := i + 1;
    }
  }
}
