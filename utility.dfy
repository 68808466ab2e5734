/** Utility.py: aligning a report made of plain lines and (caption, value)
    pairs, where every caption is right-justified to the longest caption. */
module Utility {

  /** An element of the list handed to `format_output_string`: a plain
      string, or a tuple `(caption, value)`. */
  datatype OutputItem = Line(text: string) | Pair(caption: string, value: string)

  function Spaces(n: nat): (s: string)
    ensures |s| == n
    ensures forall i :: 0 <= i < n ==> s[i] == ' '
  {
    if n == 0 then "" else Spaces(n - 1) + " "
  }

  /** `s.rjust(width)`: pad on the left with spaces, never truncate. */
  function RJust(s: string, width: nat): (r: string)
    ensures |r| == if |s| >= width then |s| else width
    ensures r[|r| - |s|..] == s
    ensures forall i :: 0 <= i < |r| - |s| ==> r[i] == ' '
  {
    if |s| >= width then s else Spaces(width - |s|) + s
  }

  /** The length of the longest caption among the tuples, 0 when there is no
      tuple. */
  function MaxLabel(output: seq<OutputItem>): nat
  {
    if output == [] then 0
    else
      var w0 := MaxLabel(output[..|output| - 1]);
      var last := output[|output| - 1];
      if last.Pair? && |last.caption| > w0 then |last.caption| else w0
  }

  /** MaxLabel is the maximum: no caption is longer, and unless it is 0 some
      caption has exactly that length. */
  lemma {:induction false} MaxLabelIsMaximum(output: seq<OutputItem>)
    ensures forall i :: 0 <= i < |output| && output[i].Pair? ==> |output[i].caption| <= MaxLabel(output)
    ensures MaxLabel(output) == 0 ||
      exists i :: 0 <= i < |output| && output[i].Pair? && |output[i].caption| == MaxLabel(output)
  {
    if output != [] {
      var init := output[..|output| - 1];
      MaxLabelIsMaximum(init);
      assert forall i :: 0 <= i < |init| ==> init[i] == output[i];
    }
  }

  function Render(width: nat, item: OutputItem): string
  {
    match item
    case Line(text) => text
    case Pair(caption, value) => RJust(caption, width) + value
  }

  function RenderAll(width: nat, output: seq<OutputItem>): (lines: seq<string>)
    ensures |lines| == |output|
    ensures forall i :: 0 <= i < |output| ==> lines[i] == Render(width, output[i])
  {
    seq(|output|, i requires 0 <= i < |output| => Render(width, output[i]))
  }

  /** `"\n".join(lines)`. */
  function Join(lines: seq<string>): string
  {
    if lines == [] then ""
    else if |lines| == 1 then lines[0]
    else lines[0] + "\n" + Join(lines[1..])
  }

  /** `s.split("\n")`. */
  function Split(s: string): (parts: seq<string>)
    ensures |parts| >= 1
    decreases |s|
  {
    if '\n' !in s then [s]
    else
      var i := FirstNewline(s);
      [s[..i]] + Split(s[i + 1..])
  }

  function FirstNewline(s: string): (i: nat)
    requires '\n' in s
    ensures i < |s| && s[i] == '\n' && '\n' !in s[..i]
  {
    if s[0] == '\n' then 0
    else
      assert '\n' in s[1..] by {
        var k :| 0 <= k < |s| && s[k] == '\n';
        assert s[1..][k - 1] == '\n';
      }
      var j := FirstNewline(s[1..]);
      assert s[..j + 1] == [s[0]] + s[1..][..j];
      j + 1
  }

  /** The formatted report, one rendered item per line. */
  method FormatOutputString(output: seq<OutputItem>) returns (s: string)
    ensures s == Join(RenderAll(MaxLabel(output), output))
  {
    var characterCount := 0;
    var i := 0;
    while i < |output|
      invariant 0 <= i <= |output|
      invariant characterCount == MaxLabel(output[..i])
    {
      assert output[..i + 1][..i] == output[..i];
      var st := output[i];
      if st.Pair? && |st.caption| > characterCount {
        characterCount := |st.caption|;
      }
      i := i + 1;
    }
    assert output[..|output|] == output;
    var out: seq<string> := [];
    i := 0;
    while i < |output|
      invariant 0 <= i <= |output|
      invariant out == RenderAll(characterCount, output[..i])
    {
      assert RenderAll(characterCount, output[..i + 1])
        == RenderAll(characterCount, output[..i]) + [Render(characterCount, output[i])];
      var st := output[i];
      match st {
        case Pair(caption, value) =>
          out := out + [RJust(caption, characterCount) + value];
        case Line(text) =>
          out := out + [text];
      }
      i := i + 1;
    }
    s := Join(out);
  }

  lemma FormatEmpty()
    ensures Join(RenderAll(MaxLabel([]), [])) == ""
  {
  }

  /** What each line of the report holds: a plain string unchanged, a tuple
      as its caption right-justified to the longest caption W, then its value, so
      that the line is exactly W + |value| long and ends with caption + value. */
  lemma {:induction false} RenderedLine(output: seq<OutputItem>, i: nat)
    requires i < |output|
    ensures output[i].Line? ==> RenderAll(MaxLabel(output), output)[i] == output[i].text
    ensures output[i].Pair? ==>
      var line := RenderAll(MaxLabel(output), output)[i];
      |line| == MaxLabel(output) + |output[i].value| &&
      line == Spaces(MaxLabel(output) - |output[i].caption|) + output[i].caption + output[i].value
  {
    var w := MaxLabel(output);
    assert RenderAll(w, output)[i] == Render(w, output[i]);
    if output[i].Pair? {
      var cap, value := output[i].caption, output[i].value;
      CaptionFits(output, i);
      PairLine(w, cap, value);
      assert Render(w, output[i]) == RJust(cap, w) + value;
      assert RenderAll(w, output)[i] == Spaces(w - |cap|) + cap + value;
    }
  }

  lemma CaptionFits(output: seq<OutputItem>, i: nat)
    requires i < |output| && output[i].Pair?
    ensures |output[i].caption| <= MaxLabel(output)
  {
    MaxLabelIsMaximum(output);
  }

  /** A tuple line: the caption padded on the left to the width, then the value. */
  lemma PairLine(w: nat, caption: string, value: string)
    requires |caption| <= w
    ensures RJust(caption, w) + value == Spaces(w - |caption|) + caption + value
    ensures |RJust(caption, w) + value| == w + |value|
  {
    if |caption| == w {
      assert Spaces(0) + caption == caption;
    }
  }

  /** Splitting the report at its newlines gives back the rendered lines,
      provided that no line holds a newline of its own. */
  lemma {:induction false} SplitJoin(lines: seq<string>)
    requires |lines| >= 1
    requires forall i :: 0 <= i < |lines| ==> '\n' !in lines[i]
    ensures Split(Join(lines)) == lines
  {
    if |lines| > 1 {
      var s := Join(lines);
      var head := lines[0];
      assert s == head + "\n" + Join(lines[1..]);
      assert s[|head|] == '\n';
      assert s[..|head|] == head;
      var i := FirstNewline(s);
      assert i == |head| by {
        assert forall k :: 0 <= k < |head| ==> s[k] == head[k];
      }
      assert s[i + 1..] == Join(lines[1..]);
      SplitJoin(lines[1..]);
    }
  }
}
