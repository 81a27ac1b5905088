/** String helpers standing for the Python string operations the generator uses:
    `range` counts, character deletion (`replace` / `translate`), `sep.join`,
    ASCII case mapping and `str.capitalize`. */
module Text {

  /** The number of iterations of Python's `range(n)`: a negative count runs no iteration. */
  function Count(n: int): (r: nat)
    ensures n <= 0 ==> r == 0
    ensures n > 0 ==> r == n
  {
    if n > 0 then n else 0
  }

  /** Python's `string.punctuation`: the 32 ASCII punctuation characters. */
  const Punctuation: set<char> :=
    {'!', '"', '#', '$', '%', '&', '\'', '(', ')', '*', '+', ',', '-', '.', '/',
     ':', ';', '<', '=', '>', '?', '@', '[', '\\', ']', '^', '_', '`', '{', '|',
     '}', '~'}

  /** `s` with every character of `drop` deleted, the others kept in order
      (`str.replace(c, '')` for one character, `translate` with a table mapping
      each character of `drop` to None). */
  function Without(s: string, drop: set<char>): string
  {
    if s == [] then []
    else if s[0] in drop then Without(s[1..], drop) else [s[0]] + Without(s[1..], drop)
  }

  /** Deletion leaves no dropped character and keeps every other character as often as it
      occurred. */
  lemma {:induction false} WithoutSpec(s: string, drop: set<char>)
    ensures |Without(s, drop)| <= |s|
    ensures forall i :: 0 <= i < |Without(s, drop)| ==> Without(s, drop)[i] !in drop
    ensures forall c :: multiset(Without(s, drop))[c] == if c in drop then 0 else multiset(s)[c]
  {
    if s != [] {
      WithoutSpec(s[1..], drop);
      assert s == [s[0]] + s[1..];
    }
  }

  /** Deleting twice deletes nothing more; a string without those characters is unchanged. */
  lemma {:induction false} WithoutUnchanged(s: string, drop: set<char>)
    requires forall i :: 0 <= i < |s| ==> s[i] !in drop
    ensures Without(s, drop) == s
  {
    if s != [] {
      WithoutUnchanged(s[1..], drop);
    }
  }

  /** Deletion distributes over concatenation. */
  lemma {:induction false} WithoutAppend(s: string, t: string, drop: set<char>)
    ensures Without(s + t, drop) == Without(s, drop) + Without(t, drop)
  {
    if s == [] {
      assert s + t == t;
    } else {
      assert (s + t)[1..] == s[1..] + t;
      WithoutAppend(s[1..], t, drop);
    }
  }

  /** Python's `sep.join(parts)`. */
  function JoinWith(sep: string, parts: seq<string>): (r: string)
    decreases |parts|
  {
    if parts == [] then []
    else if |parts| == 1 then parts[0]
    else JoinWith(sep, parts[..|parts| - 1]) + sep + parts[|parts| - 1]
  }

  /** The total length of the pieces. */
  function TotalLength(parts: seq<string>): nat
  {
    if parts == [] then 0 else TotalLength(parts[..|parts| - 1]) + |parts[|parts| - 1]|
  }

  /** `sep.join(parts)` has the parts' total length plus one separator between each two. */
  lemma {:induction false} JoinWithLength(sep: string, parts: seq<string>)
    requires parts != []
    ensures |JoinWith(sep, parts)| == TotalLength(parts) + |sep| * (|parts| - 1)
  {
    if |parts| > 1 {
      JoinWithLength(sep, parts[..|parts| - 1]);
    }
  }

  /** `sep.join(parts)` is the first part followed by every later part, each preceded by
      one separator. */
  lemma {:induction false} JoinWithParts(sep: string, parts: seq<string>)
    requires parts != []
    ensures JoinWith(sep, parts) == parts[0] + Concat(Separated(sep, parts))
  {
    if |parts| > 1 {
      var p := parts[..|parts| - 1];
      JoinWithParts(sep, p);
      var tail := Separated(sep, parts);
      assert tail[..|tail| - 1] == Separated(sep, p);
      assert p[0] == parts[0];
    } else {
      assert Separated(sep, parts) == [];
    }
  }

  /** The parts after the first, each with the separator in front. */
  function Separated(sep: string, parts: seq<string>): (r: seq<string>)
    requires parts != []
    ensures |r| == |parts| - 1
    ensures forall i :: 0 <= i < |r| ==> r[i] == sep + parts[i + 1]
  {
    seq(|parts| - 1, i requires 0 <= i < |parts| - 1 => sep + parts[i + 1])
  }

  /** Python's `''.join(parts)`. */
  function Concat(parts: seq<string>): (r: string)
  {
    if parts == [] then [] else Concat(parts[..|parts| - 1]) + parts[|parts| - 1]
  }

  /** `''.join` is `sep.join` with the empty separator. */
  lemma {:induction false} ConcatIsEmptyJoin(parts: seq<string>)
    ensures Concat(parts) == JoinWith("", parts)
  {
    if |parts| > 1 {
      ConcatIsEmptyJoin(parts[..|parts| - 1]);
    } else if |parts| == 1 {
      assert parts[..0] == [];
    }
  }

  lemma {:induction false} ConcatLength(parts: seq<string>)
    ensures |Concat(parts)| == TotalLength(parts)
  {
    if parts != [] {
      ConcatLength(parts[..|parts| - 1]);
    }
  }

  /** Every part of a `''.join` shows up in it at the offset of the parts before it. */
  lemma {:induction false} ConcatSuffix(parts: seq<string>)
    requires parts != []
    ensures Concat(parts) == Concat(parts[..|parts| - 1]) + parts[|parts| - 1]
    ensures |parts[|parts| - 1]| > 0 ==> Concat(parts)[|Concat(parts)| - 1] == parts[|parts| - 1][|parts[|parts| - 1]| - 1]
  {
  }

  predicate IsAsciiUpper(c: char) { 'A' <= c <= 'Z' }

  predicate IsAsciiLower(c: char) { 'a' <= c <= 'z' }

  /** Upper-casing of one character, ASCII letters only. */
  function Upper(c: char): (r: char)
    ensures IsAsciiLower(c) ==> IsAsciiUpper(r) && r as int == c as int - 32
    ensures !IsAsciiLower(c) ==> r == c
  {
    if IsAsciiLower(c) then (c as int - 32) as char else c
  }

  /** ASCII lower-casing of one character. */
  function Lower(c: char): (r: char)
    ensures IsAsciiUpper(c) ==> IsAsciiLower(r) && r as int == c as int + 32
    ensures !IsAsciiUpper(c) ==> r == c
  {
    if IsAsciiUpper(c) then (c as int + 32) as char else c
  }

  /** `s.lower()`. */
  function LowerAll(s: string): string
  {
    if s == [] then [] else [Lower(s[0])] + LowerAll(s[1..])
  }

  /** Lower-casing a string lower-cases each character in place. */
  lemma {:induction false} LowerAllSpec(s: string)
    ensures |LowerAll(s)| == |s|
    ensures forall i :: 0 <= i < |s| ==> LowerAll(s)[i] == Lower(s[i])
  {
    if s != [] {
      LowerAllSpec(s[1..]);
    }
  }

  /** Python's `str.capitalize()`: the first character upper case, the rest lower case. */
  function Capitalize(s: string): (r: string)
  {
    if s == [] then [] else [Upper(s[0])] + LowerAll(s[1..])
  }

  /** Capitalizing keeps the length, upper-cases the head, lower-cases the tail and leaves
      every character that is not an ASCII letter where it was. */
  lemma CapitalizeShape(s: string)
    ensures |Capitalize(s)| == |s|
    ensures s != [] ==> Capitalize(s)[0] == Upper(s[0])
    ensures forall i :: 1 <= i < |s| ==> Capitalize(s)[i] == Lower(s[i])
    ensures forall i :: 0 <= i < |s| && !IsAsciiUpper(s[i]) && !IsAsciiLower(s[i]) ==> Capitalize(s)[i] == s[i]
  {
    if s != [] {
      LowerAllSpec(s[1..]);
    }
  }

  /** Capitalizing only changes letter case: lower-cased, the two strings agree. */
  lemma CapitalizeCaseInsensitive(s: string)
    ensures LowerAll(Capitalize(s)) == LowerAll(s)
  {
    CapitalizeShape(s);
    LowerAllSpec(s);
    LowerAllSpec(Capitalize(s));
  }

  /** Capitalizing an already capitalized string changes nothing. */
  lemma CapitalizeIdempotent(s: string)
    ensures Capitalize(Capitalize(s)) == Capitalize(s)
  {
    CapitalizeShape(s);
    CapitalizeShape(Capitalize(s));
  }
}
