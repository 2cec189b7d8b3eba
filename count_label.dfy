/** The segments an animated count label displays (`AnimatedCountLabelNode.Segment`):
    a number segment animates its digit, a text segment is matched across updates by its index.
    The font and colour of each segment's attributed string are presentation only; a segment
    keeps just its characters. */
module CountLabel {
  import opened SwiftTypes

  datatype Segment = Number(value: nat, text: string) | Text(index: nat, text: string)

  /** `Character.wholeNumberValue`: the whole number a character stands for, if any. Swift
      answers for every Unicode numeric character, not only '0'..'9', so the model takes the
      oracle as a parameter instead of fixing it. */
  type WholeNumberValue = char -> Option<nat>

  /** The string a label shows: its segments' strings, in order. */
  function Concat(segments: seq<Segment>): string
  {
    if segments == [] then [] else segments[0].text + Concat(segments[1..])
  }

  lemma {:induction false} ConcatAppend(segments: seq<Segment>, s: Segment)
    ensures Concat(segments + [s]) == Concat(segments) + s.text
  {
    if segments == [] {
      assert [s][1..] == [];
    } else {
      assert (segments + [s])[1..] == segments[1..] + [s];
      ConcatAppend(segments[1..], s);
    }
  }

  /** Taking one more character of a string appends that character. */
  lemma TakeOneMore(s: string, i: nat)
    requires i < |s|
    ensures s[..i + 1] == s[..i] + [s[i]]
  {
  }
}
