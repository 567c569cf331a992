/**
 The console menu: a header and numbered options, printed one per line,
 and the reading of a choice, which drops the line ending. Reading from
 standard input is outside the model: the raw line is a parameter.
 */
module CmdLine {
  import opened Base
  import opened Text

  /** `CbCmdMenuOption`. */
  datatype MenuOption = MenuOption(id: nat, displayText: string)

  /** `CbCmdMenu`; nothing ever sets the child. */
  datatype CmdMenu = CmdMenu(menuLevel: nat, displayText: string, child: Option<CmdMenu>, options: seq<MenuOption>)

  /** The options for `texts`, numbered from `first` on. */
  function Numbered(texts: seq<string>, first: nat): (opts: seq<MenuOption>)
    ensures |opts| == |texts|
    ensures forall k :: 0 <= k < |texts| ==> opts[k].id == first + k && opts[k].displayText == texts[k]
    decreases |texts|
  {
    if |texts| == 0 then [] else [MenuOption(first, texts[0])] + Numbered(texts[1..], first + 1)
  }

  /** `CbCmdMenu::new`: the options numbered 1, 2, … in the order given, and no child. */
  function NewCmdMenu(header: string, texts: seq<string>, level: nat): (m: CmdMenu)
    ensures m.menuLevel == level && m.displayText == header && m.child.None?
    ensures |m.options| == |texts|
    ensures forall k :: 0 <= k < |texts| ==> m.options[k] == MenuOption(k + 1, texts[k])
  {
    CmdMenu(level, header, None, Numbered(texts, 1))
  }

  /** `CbCmdMenu::root`: a menu at level 0. */
  function Root(header: string, texts: seq<string>): (m: CmdMenu)
    ensures m == NewCmdMenu(header, texts, 0)
    ensures m.menuLevel == 0
  {
    NewCmdMenu(header, texts, 0)
  }

  /** The texts of a menu's options, in order. */
  function OptionTexts(m: CmdMenu): seq<string>
  {
    seq(|m.options|, k requires 0 <= k < |m.options| => m.options[k].displayText)
  }

  /** A new menu shows the texts it was given, in order, and no two options share an id. */
  lemma MenuKeepsTexts(header: string, texts: seq<string>, level: nat)
    ensures OptionTexts(NewCmdMenu(header, texts, level)) == texts
    ensures var o := NewCmdMenu(header, texts, level).options;
      forall j, k :: 0 <= j < k < |o| ==> o[j].id < o[k].id
  {
  }

  /** The line `print` writes for an option: "# id: text". */
  function OptionLine(o: MenuOption): string
  {
    "# " + Decimal(o.id) + ": " + o.displayText
  }

  /** `print`: the header line, then one line per option, in order. */
  function PrintLines(m: CmdMenu): (lines: seq<string>)
    ensures |lines| == |m.options| + 1 && lines[0] == m.displayText
    ensures forall k :: 0 <= k < |m.options| ==> lines[k + 1] == OptionLine(m.options[k])
  {
    [m.displayText] + seq(|m.options|, k requires 0 <= k < |m.options| => OptionLine(m.options[k]))
  }

  /** The printed lines of two different options differ, so each id is shown once. */
  lemma OptionLinesDistinct(header: string, texts: seq<string>, level: nat, j: nat, k: nat)
    requires j < k < |texts|
    ensures var lines := PrintLines(NewCmdMenu(header, texts, level));
      lines[j + 1] != lines[k + 1]
  {
    var m := NewCmdMenu(header, texts, level);
    var a, b := Decimal(j + 1), Decimal(k + 1);
    var lj, lk := OptionLine(m.options[j]), OptionLine(m.options[k]);
    if lj == lk {
      // The id ends at the first ':' after "# "; both lines therefore carry the same id.
      assert lj == "# " + a + (": " + texts[j]);
      assert lk == "# " + b + (": " + texts[k]);
      ColonEndsDigits(a, b, ": " + texts[j], ": " + texts[k]);
      DecimalInjective(j + 1, k + 1);
    }
  }

  /** The position of the first ':' of `s` at or after `i`, or |s| if there is none. */
  function ColonFrom(s: string, i: nat): nat
    requires i <= |s|
    decreases |s| - i
  {
    if i == |s| then i else if s[i] == ':' then i else ColonFrom(s, i + 1)
  }

  /** In "# " + digits + ":…", the first ':' after the prefix ends the digits. */
  lemma {:induction false} ColonAfterDigits(a: string, x: string, i: nat)
    requires AllDigits(a) && |x| > 0 && x[0] == ':' && i <= |a|
    ensures ColonFrom("# " + a + x, 2 + i) == 2 + |a|
    decreases |a| - i
  {
    var s := "# " + a + x;
    if i < |a| {
      assert s[2 + i] == a[i] && IsDigit(a[i]);
      ColonAfterDigits(a, x, i + 1);
    } else {
      assert s[2 + i] == x[0];
    }
  }

  /** Two digit strings each followed by a ':' cannot be told apart by what follows unless they are equal. */
  lemma ColonEndsDigits(a: string, b: string, x: string, y: string)
    requires AllDigits(a) && AllDigits(b)
    requires |x| > 0 && x[0] == ':' && |y| > 0 && y[0] == ':'
    requires "# " + a + x == "# " + b + y
    ensures a == b
  {
    var s := "# " + a + x;
    ColonAfterDigits(a, x, 0);
    ColonAfterDigits(b, y, 0);
    assert |a| == |b|;
    assert a == s[2..2 + |a|] == b;
  }

  /**
   `get_menu_choice` on the line read: one trailing '\n' is dropped, and
   then one trailing '\r'.
   */
  function TrimLine(s: string): (r: string)
    ensures |s| - 2 <= |r| <= |s| && r == s[..|r|]
    ensures |s| > 0 && s[|s| - 1] == '\n' && (|s| < 2 || s[|s| - 2] != '\r') ==> r == s[..|s| - 1]
    ensures |s| >= 2 && s[|s| - 2..] == "\r\n" ==> r == s[..|s| - 2]
    ensures |s| > 0 && s[|s| - 1] == '\r' ==> r == s[..|s| - 1]
    ensures |s| == 0 || (s[|s| - 1] != '\n' && s[|s| - 1] != '\r') ==> r == s
  {
    var s1 := if |s| > 0 && s[|s| - 1] == '\n' then s[..|s| - 1] else s;
    if |s1| > 0 && s1[|s1| - 1] == '\r' then s1[..|s1| - 1] else s1
  }

  /** A typed line, with either line ending, reads back as typed when it does not itself end in a line-end character. */
  lemma TrimLineEndings(t: string)
    requires |t| == 0 || (t[|t| - 1] != '\n' && t[|t| - 1] != '\r')
    ensures TrimLine(t + "\n") == t && TrimLine(t + "\r\n") == t && TrimLine(t) == t
  {
    assert (t + "\n")[..|t|] == t;
    assert (t + "\r\n")[..|t| + 1] == t + "\r";
    assert (t + "\r")[..|t|] == t;
  }

  /** Typing the number printed in front of an option, as printed, selects that option. */
  lemma TypedIdSelects(header: string, texts: seq<string>, level: nat, k: nat)
    requires k < |texts|
    ensures var id := NewCmdMenu(header, texts, level).options[k].id;
      && id == k + 1
      && TrimLine(Decimal(id) + "\n") == Decimal(id)
      && ParseUsize(TrimLine(Decimal(id) + "\r\n")) == if id <= USIZE_MAX then Some(id) else None
  {
    var id := NewCmdMenu(header, texts, level).options[k].id;
    TypedNumberReads(id);
  }

  /** A number typed as printed, with either line ending, reads back as that number. */
  lemma TypedNumberReads(n: nat)
    ensures TrimLine(Decimal(n) + "\n") == Decimal(n)
    ensures ParseUsize(TrimLine(Decimal(n) + "\r\n")) == if n <= USIZE_MAX then Some(n) else None
  {
    var d := Decimal(n);
    DigitsReadBack(d);
    ParseDecimal(n);
  }

  /** A typed run of digits reads back unchanged with either line ending. */
  lemma DigitsReadBack(d: string)
    requires |d| > 0 && AllDigits(d)
    ensures TrimLine(d + "\n") == d && TrimLine(d + "\r\n") == d
  {
    assert IsDigit(d[|d| - 1]);
    TrimLineEndings(d);
  }

  /** A printed number parses back to itself when it fits in a `usize`, and is refused otherwise. */
  lemma ParseDecimal(n: nat)
    ensures ParseUsize(Decimal(n)) == if n <= USIZE_MAX then Some(n) else None
  {
    var d := Decimal(n);
    DecimalRoundTrip(n);
    assert IsDigit(d[0]);
  }
}
