/**
 * What every file diff shares: the change markers at the start of a diff line, and the
 * line-indexed view of a block of diff lines.
 */
module DiffLines {
  import opened JavaText

  /** LINE_ADDED_MARKER and LINE_DELETED_MARKER. */
  const AddedMarker: string := "+"
  const DeletedMarker: string := "-"

  /** Removes one leading change marker, if there is one. */
  function StripMarker(line: string): string {
    if StartsWith(line, AddedMarker) || StartsWith(line, DeletedMarker) then line[1..] else line
  }

  /** At most one leading `+` or `-` is removed, and nothing else changes. */
  lemma StripMarkerAtMostOne(line: string)
    ensures StripMarker(line) == line
         || (|line| > 0 && (line[0] == '+' || line[0] == '-') && StripMarker(line) == line[1..])
    ensures |line| > 0 && (line[0] == '+' || line[0] == '-') ==> StripMarker(line) == line[1..]
  {
  }

  /** The values of `f` at 0, ..., n - 1. */
  function Tabulate<T>(f: nat --> T, n: nat): (r: seq<T>)
    requires forall i: nat | i < n :: f.requires(i)
    ensures |r| == n
    decreases n
  {
    if n == 0 then [] else Tabulate(f, n - 1) + [f(n - 1)]
  }

  lemma {:induction false} TabulateAt<T>(f: nat --> T, n: nat, i: nat)
    requires forall j: nat | j < n :: f.requires(j)
    requires i < n
    ensures Tabulate(f, n)[i] == f(i)
    decreases n
  {
    if i < n - 1 {
      TabulateAt(f, n - 1, i);
    }
  }
}
