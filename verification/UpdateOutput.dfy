/** The output a system update keeps: appended piece by piece, bounded, read by the panel. */
module UpdateOutput {
  import opened Wrappers

  const MAX_OUTPUT := 200000

  function Tail(s: string): string {
    if |s| > MAX_OUTPUT then s[|s| - MAX_OUTPUT..] else s
  }

  /** What a write of `piece` leaves; an empty piece writes nothing. */
  function Appended(output: string, piece: string): string {
    if piece != "" then Tail(output + piece) else output
  }

  class UpdateRow {
    var output: string

    constructor ()
      ensures output == ""
    {
      output := "";
    }

    /** The bound is kept, and what is kept is the end of what was there and the new piece. */
    method Update(append: Option<string>)
      modifies this
      ensures |old(output)| <= 200_000 ==> |output| <= 200_000
      ensures var whole := old(output) + if append.Some? then append.value else "";
        && |output| <= |whole| && output == whole[|whole| - |output|..]
        && (|whole| <= 200_000 ==> output == whole)
        && (|output| < |whole| ==> |output| == 200_000)
      ensures append.Some? ==> output == Appended(old(output), append.value)
    {
      if append.Some? && append.value != "" {
        output := output + append.value;
        if |output| > MAX_OUTPUT {
          output := output[|output| - MAX_OUTPUT..];
        }
      }
    }
  }

  function Whole(pieces: seq<string>): string {
    if pieces == [] then "" else pieces[0] + Whole(pieces[1..])
  }

  lemma {:induction false} WholeSnoc(pieces: seq<string>, piece: string)
    ensures Whole(pieces + [piece]) == Whole(pieces) + piece
    decreases |pieces|
  {
    if pieces == [] {
      assert [piece][1..] == [] && piece + "" == piece == "" + piece;
      assert pieces + [piece] == [piece];
    } else {
      WholeSnoc(pieces[1..], piece);
      assert (pieces + [piece])[1..] == pieces[1..] + [piece];
    }
  }

  /** Cutting early loses nothing that a later cut would keep. */
  lemma TailOfTail(s: string, piece: string)
    ensures Tail(Tail(s) + piece) == Tail(s + piece)
  {
  }

  function Kept(pieces: seq<string>): string {
    if pieces == [] then "" else Appended(Kept(pieces[..|pieces| - 1]), pieces[|pieces| - 1])
  }

  /** However many pieces the phases report, what is kept is the end of everything reported. */
  lemma {:induction false} KeepsTheEnd(pieces: seq<string>)
    ensures Kept(pieces) == Tail(Whole(pieces))
    decreases |pieces|
  {
    if pieces != [] {
      var before, last := pieces[..|pieces| - 1], pieces[|pieces| - 1];
      KeepsTheEnd(before);
      WholeSnoc(before, last);
      TailOfTail(Whole(before), last);
      assert pieces == before + [last];
      assert last == "" ==> Whole(before) + last == Whole(before);
    }
  }
}
