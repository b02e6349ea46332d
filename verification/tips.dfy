/** How the dashboard and the profile screen turn the assistant's tip text
    into at most three cards: split on line feeds, drop blank lines, keep the
    first three, and strip a leading `<digits>.` numbering with the
    whitespace after it. */
module Tips {
  import Text
  import Seqs

  /** The number of leading decimal digits of `s`. */
  function LeadingDigits(s: string): (d: nat)
    ensures d <= |s|
    ensures Text.AllDigits(s[..d])
    ensures d < |s| ==> !Text.IsDigit(s[d])
    decreases |s|
  {
    if |s| > 0 && Text.IsDigit(s[0]) then
      var rest := LeadingDigits(s[1..]);
      assert s[..1 + rest] == [s[0]] + s[1..][..rest];
      1 + rest
    else 0
  }

  /** `s` without its leading whitespace. */
  function DropWhitespace(s: string): (r: string)
    ensures |r| <= |s| && r == s[|s| - |r|..]
    ensures |r| > 0 ==> !Text.IsWhitespace(r[0])
    ensures forall i :: 0 <= i < |s| - |r| ==> Text.IsWhitespace(s[i])
    decreases |s|
  {
    if |s| > 0 && Text.IsWhitespace(s[0]) then DropWhitespace(s[1..]) else s
  }

  /** `s` begins with one or more digits followed by a full stop. */
  ghost predicate IsNumbered(s: string)
  {
    exists d :: 1 <= d < |s| && Text.AllDigits(s[..d]) && s[d] == '.'
  }

  /** `tip.replace(/^\d+\.\s*\/, '')`. */
  function StripNumbering(s: string): (r: string)
    ensures |r| <= |s| && r == s[|s| - |r|..]
    ensures |r| < |s| ==> |r| + 2 <= |s| && Text.IsDigit(s[0]) && (|r| > 0 ==> !Text.IsWhitespace(r[0]))
  {
    var d := LeadingDigits(s);
    if 1 <= d < |s| && s[d] == '.' then DropWhitespace(s[d + 1..]) else s
  }

  /** The numbering is stripped exactly when there is one. */
  lemma StripsExactlyNumbering(s: string)
    ensures IsNumbered(s) <==> |StripNumbering(s)| < |s|
  {
    var d := LeadingDigits(s);
    if 1 <= d < |s| && s[d] == '.' {
      assert IsNumbered(s);
    } else if IsNumbered(s) {
      var e :| 1 <= e < |s| && Text.AllDigits(s[..e]) && s[e] == '.';
      NumberedAt(s, e);
      assert false;
    }
  }

  /** A full stop after digits is where the leading digits end. */
  lemma NumberedAt(s: string, e: nat)
    requires 1 <= e < |s| && Text.AllDigits(s[..e]) && s[e] == '.'
    ensures LeadingDigits(s) == e
  {
  }

  /** The numbering a list written as `1. tip` receives is stripped to the
      tip itself, whatever whitespace follows the full stop. */
  lemma StripNumberingOf(n: nat, ws: string, tip: string)
    requires forall i :: 0 <= i < |ws| ==> Text.IsWhitespace(ws[i])
    requires |tip| > 0 ==> !Text.IsWhitespace(tip[0])
    ensures StripNumbering(Text.NatToString(n) + "." + ws + tip) == tip
  {
    var num := Text.NatToString(n);
    assert num + "." + ws + tip == num + ("." + (ws + tip));
    StripDigitsDot(num, ws + tip);
    DropWhitespaceOf(ws, tip);
  }

  /** Digits and a full stop are stripped, with the whitespace after them. */
  lemma StripDigitsDot(num: string, after: string)
    requires |num| >= 1 && Text.AllDigits(num)
    ensures StripNumbering(num + ("." + after)) == DropWhitespace(after)
  {
    assert LeadingDigits(num + ("." + after)) == |num| by {
      DotParts(num, after);
      LeadingDigitsOf(num, "." + after);
    }
    StripAt(num, after);
  }

  lemma DotParts(num: string, after: string)
    ensures ("." + after)[0] == '.' && !Text.IsDigit('.')
  {
  }

  /** Where the digits end in a full stop, the numbering is stripped there. */
  lemma StripAt(num: string, after: string)
    requires 1 <= |num| && LeadingDigits(num + ("." + after)) == |num|
    ensures StripNumbering(num + ("." + after)) == DropWhitespace(after)
  {
    var line := num + ("." + after);
    assert line[|num|] == '.';
    assert line[|num| + 1..] == after;
  }

  lemma {:induction false} LeadingDigitsOf(digits: string, rest: string)
    requires Text.AllDigits(digits)
    requires |rest| > 0 && !Text.IsDigit(rest[0])
    ensures LeadingDigits(digits + rest) == |digits|
    decreases |digits|
  {
    if |digits| > 0 {
      assert (digits + rest)[1..] == digits[1..] + rest;
      LeadingDigitsOf(digits[1..], rest);
    } else {
      assert digits + rest == rest;
    }
  }

  lemma {:induction false} DropWhitespaceOf(ws: string, tip: string)
    requires forall i :: 0 <= i < |ws| ==> Text.IsWhitespace(ws[i])
    requires |tip| > 0 ==> !Text.IsWhitespace(tip[0])
    ensures DropWhitespace(ws + tip) == tip
    decreases |ws|
  {
    if |ws| > 0 {
      assert (ws + tip)[1..] == ws[1..] + tip;
      DropWhitespaceOf(ws[1..], tip);
    } else {
      assert ws + tip == tip;
    }
  }

  predicate NotBlank(line: string)
  {
    !Text.IsBlank(line)
  }

  /** The non-blank lines of the text, in order. */
  function Lines(text: string): (r: seq<string>)
    ensures forall i :: 0 <= i < |r| ==> '\n' !in r[i] && NotBlank(r[i])
    ensures r == Seqs.Filter(NotBlank, Text.Split(text, '\n'))
  {
    var all := Text.Split(text, '\n');
    var r := Seqs.Filter(NotBlank, all);
    assert forall i :: 0 <= i < |r| ==> r[i] in all;
    r
  }

  /** The cards for a list of lines: the first three, each with its
      numbering stripped. */
  function Cards(lines: seq<string>): (r: seq<string>)
    ensures |r| == if |lines| < 3 then |lines| else 3
    ensures forall i :: 0 <= i < |r| ==> r[i] == StripNumbering(lines[i])
  {
    var n := if |lines| < 3 then |lines| else 3;
    seq(n, i requires 0 <= i < n => StripNumbering(lines[i]))
  }

  /** The cards shown for `text`: the first three non-blank lines, each
      with its numbering stripped, none spanning two lines. */
  function DisplayTips(text: string): (r: seq<string>)
    ensures |r| <= 3
    ensures |r| == if |Lines(text)| < 3 then |Lines(text)| else 3
    ensures forall i :: 0 <= i < |r| ==> '\n' !in r[i]
    ensures forall i :: 0 <= i < |r| ==> r[i] == StripNumbering(Lines(text)[i])
  {
    var lines := Lines(text);
    var r := Cards(lines);
    forall i | 0 <= i < |r|
      ensures '\n' !in r[i]
    {
      var line := lines[i];
      assert r[i] == line[|line| - |r[i]|..];
    }
    r
  }

  /** Lines joined with line feeds split back into those lines, when none is
      blank or holds a line feed. */
  lemma LinesOfJoin(lines: seq<string>)
    requires forall i :: 0 <= i < |lines| ==> '\n' !in lines[i] && NotBlank(lines[i])
    ensures Lines(Text.Join(lines, "\n")) == lines
  {
    if |lines| == 0 {
      assert Text.Split(Text.Join(lines, "\n"), '\n') == [""];
      assert !NotBlank("");
      Seqs.FilterDropsAll(NotBlank, [""]);
    } else {
      Text.SplitJoin(lines, '\n');
      Seqs.FilterKeepsAll(NotBlank, lines);
    }
  }

  /** Shown tips carry no numbering of their own: text written as lines of
      tips comes back as the first three of those tips. */
  lemma DisplayTipsOfLines(tips: seq<string>)
    requires forall i :: 0 <= i < |tips| ==> '\n' !in tips[i] && NotBlank(tips[i]) && !IsNumbered(tips[i])
    ensures DisplayTips(Text.Join(tips, "\n")) == if |tips| < 3 then tips else tips[..3]
  {
    LinesOfJoin(tips);
    CardsOfUnnumbered(tips);
  }

  lemma CardsOfUnnumbered(lines: seq<string>)
    requires forall i :: 0 <= i < |lines| ==> !IsNumbered(lines[i])
    ensures Cards(lines) == if |lines| < 3 then lines else lines[..3]
  {
    var r := Cards(lines);
    forall i | 0 <= i < |r|
      ensures r[i] == lines[i]
    {
      Unnumbered(lines[i]);
    }
  }

  lemma Unnumbered(s: string)
    requires !IsNumbered(s)
    ensures StripNumbering(s) == s
  {
    StripsExactlyNumbering(s);
  }

  /** The same for a numbered list `1. tip`, `2. tip`, … as the assistant is
      asked to write it: the numbering does not show. */
  lemma DisplayTipsOfNumbered(tips: seq<string>)
    requires forall i :: 0 <= i < |tips| ==> '\n' !in tips[i] && |tips[i]| > 0 && !Text.IsWhitespace(tips[i][0])
    ensures DisplayTips(Text.Join(Numbered(tips, 1), "\n")) == if |tips| < 3 then tips else tips[..3]
  {
    var lines := Numbered(tips, 1);
    forall i | 0 <= i < |lines|
      ensures '\n' !in lines[i] && NotBlank(lines[i])
    {
      NumberedLineShape(i + 1, tips[i]);
    }
    LinesOfJoin(lines);
    CardsOfNumbered(tips);
  }

  lemma CardsOfNumbered(tips: seq<string>)
    requires forall i :: 0 <= i < |tips| ==> |tips[i]| > 0 && !Text.IsWhitespace(tips[i][0])
    ensures Cards(Numbered(tips, 1)) == if |tips| < 3 then tips else tips[..3]
  {
    var lines := Numbered(tips, 1);
    var r := Cards(lines);
    forall i | 0 <= i < |r|
      ensures r[i] == tips[i]
    {
      var line := lines[i];
      assert line == Text.NatToString(1 + i) + ". " + tips[i];
      assert r[i] == StripNumbering(line);
      NumberedLine(1 + i, tips[i]);
    }
  }

  lemma NumberedLineShape(n: nat, tip: string)
    requires '\n' !in tip
    ensures var line := Text.NatToString(n) + ". " + tip;
            '\n' !in line && NotBlank(line)
  {
    var num := Text.NatToString(n);
    var line := num + ". " + tip;
    assert line[|num|] == '.';
    assert !Text.IsWhitespace('.');
    assert forall i :: 0 <= i < |num| ==> line[i] == num[i] && Text.IsDigit(num[i]);
  }

  lemma NumberedLine(n: nat, tip: string)
    requires |tip| > 0 && !Text.IsWhitespace(tip[0])
    ensures StripNumbering(Text.NatToString(n) + ". " + tip) == tip
  {
    var num := Text.NatToString(n);
    assert num + ". " + tip == num + "." + " " + tip;
    assert Text.IsWhitespace(" "[0]);
    StripNumberingOf(n, " ", tip);
  }

  /** `tips[k]` written as `<from + k>. tip`. */
  function Numbered(tips: seq<string>, from: nat): (r: seq<string>)
    ensures |r| == |tips|
    ensures forall i :: 0 <= i < |tips| ==> r[i] == Text.NatToString(from + i) + ". " + tips[i]
  {
    seq(|tips|, i requires 0 <= i < |tips| => Text.NatToString(from + i) + ". " + tips[i])
  }
}
