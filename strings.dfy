/** String.split with a one-character separator, as Java defines it: split
    at every separator, then drop the empty strings at the end; a string
    with no separator splits into itself alone. */
module Strings {
  /** Every piece between separators, empty ones included. */
  function SplitAll(s: string, c: char): (r: seq<string>)
    ensures |r| >= 1
  {
    if |s| == 0 then [""]
    else
      var rest := SplitAll(s[1..], c);
      if s[0] == c then [""] + rest else [[s[0]] + rest[0]] + rest[1..]
  }

  /** Glues pieces back together with the separator between them. */
  function Join(parts: seq<string>, c: char): string
    requires |parts| >= 1
  {
    if |parts| == 1 then parts[0] else parts[0] + [c] + Join(parts[1..], c)
  }

  function DropTrailingEmpty(parts: seq<string>): (r: seq<string>)
    ensures r <= parts
    ensures r == [] || r[|r| - 1] != ""
    ensures forall i :: |r| <= i < |parts| ==> parts[i] == ""
  {
    if parts == [] then []
    else if parts[|parts| - 1] == "" then DropTrailingEmpty(parts[..|parts| - 1])
    else parts
  }

  function JavaSplit(s: string, c: char): seq<string>
  {
    if c !in s then [s] else DropTrailingEmpty(SplitAll(s, c))
  }

  /** Splitting loses nothing: joining the pieces gives the string back, and
      no piece holds the separator. */
  lemma {:induction false} SplitAllJoin(s: string, c: char)
    ensures Join(SplitAll(s, c), c) == s
    ensures forall p :: p in SplitAll(s, c) ==> c !in p
  {
    if |s| > 0 {
      SplitAllJoin(s[1..], c);
      var rest := SplitAll(s[1..], c);
      if s[0] == c {
        assert s == [c] + s[1..];
      } else {
        if |rest| == 1 {
          assert s == [s[0]] + rest[0];
        } else {
          assert rest == [rest[0]] + rest[1..];
          assert Join(rest, c) == rest[0] + [c] + Join(rest[1..], c);
          assert s == [s[0]] + s[1..];
        }
      }
    }
  }

  /** The pieces String.split returns never hold the separator, only the
      split of a separator-free string can end with an empty piece, and what
      is dropped from the full split is empty pieces at its end. */
  lemma JavaSplitPieces(s: string, c: char)
    ensures forall p :: p in JavaSplit(s, c) ==> c !in p
    ensures c !in s ==> JavaSplit(s, c) == [s]
    ensures c in s ==> JavaSplit(s, c) == [] || JavaSplit(s, c)[|JavaSplit(s, c)| - 1] != ""
    ensures c in s ==> JavaSplit(s, c) <= SplitAll(s, c) &&
                       forall i :: |JavaSplit(s, c)| <= i < |SplitAll(s, c)| ==> SplitAll(s, c)[i] == ""
  {
    SplitAllJoin(s, c);
  }
}
