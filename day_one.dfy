/** Day one: blank-line separated groups of numbers, reduced to the largest
    group sum and to the three largest group sums. */
module DayOne {
  import opened Nom
  import opened Iter
  import opened VecOps

  /** The largest value nom's `u32` parser accepts. */
  const U32Max: nat := 0xFFFF_FFFF

  predicate IsDigit(c: char) {
    '0' <= c <= '9'
  }

  predicate AllDigits(ds: string) {
    forall i :: 0 <= i < |ds| ==> IsDigit(ds[i])
  }

  /** The length of the run of decimal digits `s` starts with. */
  function DigitRun(s: string): (n: nat)
    ensures n <= |s|
    ensures AllDigits(s[..n])
    ensures n < |s| ==> !IsDigit(s[n])
  {
    if s != [] && IsDigit(s[0]) then
      assert s[..1 + DigitRun(s[1..])] == [s[0]] + s[1..][..DigitRun(s[1..])];
      1 + DigitRun(s[1..])
    else 0
  }

  function DigitValue(c: char): nat
    requires IsDigit(c)
  {
    c as int - '0' as int
  }

  function DigitChar(d: nat): (c: char)
    requires d < 10
    ensures IsDigit(c) && DigitValue(c) == d
  {
    ('0' as int + d) as char
  }

  /** The number a string of decimal digits denotes, most significant digit first. */
  function DigitsValue(ds: string): nat
    requires AllDigits(ds)
  {
    if ds == [] then 0
    else 10 * DigitsValue(ds[..|ds| - 1]) + DigitValue(ds[|ds| - 1])
  }

  /** The input starts with a run of digits whose value fits in 32 bits. */
  predicate StartsWithU32(s: string) {
    0 < DigitRun(s) && DigitsValue(s[..DigitRun(s)]) <= U32Max
  }

  /** nom's `character::complete::u32`: the longest run of leading digits, read
      as a decimal number; no digit at all, or a value that does not fit in 32
      bits, is a recoverable error. */
  function ParseU32(s: string): (r: Result<nat>)
    ensures r.Done? <==> StartsWithU32(s)
    ensures r.Done? ==> r.value <= U32Max && |r.rest| < |s|
    ensures r.Fail? ==> r.failure == Error
  {
    var n := DigitRun(s);
    if n == 0 then Fail(Error)
    else
      var v := DigitsValue(s[..n]);
      if v > U32Max then Fail(Error) else Done(s[n..], v)
  }

  /** A digit prefix of length i followed by a non-digit, or by the end of
      the input, is the whole leading digit run. */
  lemma {:induction false} DigitRunIs(s: string, i: nat)
    requires i <= |s| && AllDigits(s[..i])
    requires i < |s| ==> !IsDigit(s[i])
    ensures DigitRun(s) == i
  {
    if i > 0 {
      assert IsDigit(s[..i][0]);
      assert s[1..][..i - 1] == s[..i][1..];
      DigitRunIs(s[1..], i - 1);
    }
  }

  /** Every digit prefix lies inside the leading digit run. */
  lemma {:induction false} DigitRunCovers(s: string, i: nat)
    requires i <= |s| && AllDigits(s[..i])
    ensures i <= DigitRun(s)
  {
    if i > 0 {
      assert IsDigit(s[..i][0]);
      assert s[1..][..i - 1] == s[..i][1..];
      DigitRunCovers(s[1..], i - 1);
    }
  }

  /** Reading more digits never makes the value smaller. */
  lemma {:induction false} DigitsValueGrows(s: string, i: nat, j: nat)
    requires i <= j <= |s| && AllDigits(s[..j])
    ensures AllDigits(s[..i]) && DigitsValue(s[..i]) <= DigitsValue(s[..j])
  {
    assert forall k :: 0 <= k < i ==> s[..i][k] == s[..j][k];
    if i < j {
      assert s[..j][..j - 1] == s[..j - 1];
      DigitsValueGrows(s, i, j - 1);
    }
  }

  /** nom's `complete::u32` as it runs: empty input is an error; otherwise the
      digits are read left to right into `value * 10 + d`, where either the
      multiplication or the addition overflowing 32 bits is an error; the
      first non-digit ends the number (an error if it is the first
      character), and the end of the input ends it too. The result is
      `ParseU32` of the input. */
  method CheckedU32(s: string) returns (r: Result<nat>)
    ensures r == ParseU32(s)
  {
    if |s| == 0 {
      return Fail(Error);
    }
    var value: nat := 0;
    var i := 0;
    while i < |s|
      invariant 0 <= i <= |s| && AllDigits(s[..i])
      invariant value == DigitsValue(s[..i]) <= U32Max
    {
      if !IsDigit(s[i]) {
        DigitRunIs(s, i);
        if i == 0 {
          return Fail(Error);
        }
        return Done(s[i..], value);
      }
      assert AllDigits(s[..i + 1]) && s[..i + 1][..i] == s[..i];
      assert DigitsValue(s[..i + 1]) == 10 * value + DigitValue(s[i]);
      if 10 * value > U32Max || 10 * value + DigitValue(s[i]) > U32Max {
        var run := s[..DigitRun(s)];
        DigitRunCovers(s, i + 1);
        assert run[..|run|] == run && run[..i + 1] == s[..i + 1];
        DigitsValueGrows(run, i + 1, |run|);
        assert DigitsValue(run) > U32Max;
        return Fail(Error);
      }
      value := 10 * value + DigitValue(s[i]);
      i := i + 1;
    }
    assert s[..i] == s;
    DigitRunIs(s, i);
    return Done(s[i..], value);
  }

  /** `parse_one_line`: one decimal number that fits in 32 bits, then at most
      one newline. It fails, recoverably, exactly when no such number starts
      the input, and it consumes input whenever it succeeds. */
  function ParseOneLine(s: string): (r: Result<nat>)
    ensures r.Done? <==> StartsWithU32(s)
    ensures r.Done? ==> r.value <= U32Max && |r.rest| < |s|
    ensures r.Fail? ==> r.failure == Error
  {
    match ParseU32(s)
    case Fail(f) => Fail(f)
    case Done(rest, n) => Done(OptNewline(rest), n)
  }

  /** The loop of `many1(parse_one_line)` after its first line: further lines
      until one fails. A line fails only recoverably, so the loop stops there
      and never fails itself. */
  function MoreLines(s: string): (r: Result<seq<nat>>)
    ensures r.Done? && |r.rest| <= |s|
    ensures forall i :: 0 <= i < |r.value| ==> r.value[i] <= U32Max
    decreases |s|
  {
    match ParseOneLine(s)
    case Fail(_) => Done(s, [])
    case Done(rest, n) =>
      var more := MoreLines(rest);
      Done(more.rest, [n] + more.value)
  }

  /** `parse_one_group`: one or more lines, then at most one further newline
      (the blank separator line). It succeeds exactly when its first line
      does, and then returns a non-empty group. */
  function ParseOneGroup(s: string): (r: Result<seq<nat>>)
    ensures r.Done? <==> StartsWithU32(s)
    ensures r.Done? ==> |r.value| >= 1 && |r.rest| < |s|
    ensures r.Done? ==> forall i :: 0 <= i < |r.value| ==> r.value[i] <= U32Max
    ensures r.Fail? ==> r.failure == Error
  {
    match ParseOneLine(s)
    case Fail(f) => Fail(f)
    case Done(rest, n) =>
      var more := MoreLines(rest);
      Done(OptNewline(more.rest), [n] + more.value)
  }

  /** A list of groups in which every group is non-empty and every number fits in 32 bits. */
  predicate WellFormed(groups: seq<seq<nat>>) {
    forall i :: 0 <= i < |groups| ==> |groups[i]| >= 1 && forall j :: 0 <= j < |groups[i]| ==> groups[i][j] <= U32Max
  }

  /** The loop of `many1(parse_one_group)` after its first group. */
  function MoreGroups(s: string): (r: Result<seq<seq<nat>>>)
    ensures r.Done? && |r.rest| <= |s|
    ensures WellFormed(r.value)
    decreases |s|
  {
    match ParseOneGroup(s)
    case Fail(_) => Done(s, [])
    case Done(rest, g) =>
      var more := MoreGroups(rest);
      Done(more.rest, [g] + more.value)
  }

  /** `parse_input`: one or more groups. It succeeds exactly when the input
      starts with a number that fits in 32 bits, and then returns a non-empty
      list of non-empty groups of 32-bit numbers. */
  function ParseInput(s: string): (r: Result<seq<seq<nat>>>)
    ensures r.Done? <==> StartsWithU32(s)
    ensures r.Done? ==> |r.value| >= 1 && WellFormed(r.value) && |r.rest| < |s|
    ensures r.Fail? ==> r.failure == Error
  {
    match ParseOneGroup(s)
    case Fail(f) => Fail(f)
    case Done(rest, g) =>
      var more := MoreGroups(rest);
      Done(more.rest, [g] + more.value)
  }

  // ---------------------------------------------------------------------------
  // Printing groups back as text, and reading them again.

  /** The decimal digits of n, without leading zeros. */
  function Decimal(n: nat): (ds: string)
  {
    if n < 10 then [DigitChar(n)] else Decimal(n / 10) + [DigitChar(n % 10)]
  }

  /** `Decimal` prints at least one character, and only digits. */
  lemma {:induction false} DecimalDigits(n: nat)
    ensures |Decimal(n)| > 0 && AllDigits(Decimal(n))
  {
    if n >= 10 {
      DecimalDigits(n / 10);
    }
  }

  /** The digits `Decimal` prints denote the number printed. */
  lemma {:induction false} DecimalValue(n: nat)
    ensures AllDigits(Decimal(n)) && DigitsValue(Decimal(n)) == n
  {
    DecimalDigits(n);
    if n >= 10 {
      var ds := Decimal(n);
      assert ds[..|ds| - 1] == Decimal(n / 10);
      DecimalDigits(n / 10);
      DecimalValue(n / 10);
    }
  }

  /** A group as text: one number per line, lines separated by '\n'. */
  function GroupText(g: seq<nat>): string
    requires |g| >= 1
  {
    if |g| == 1 then Decimal(g[0]) else Decimal(g[0]) + "\n" + GroupText(g[1..])
  }

  /** Groups as text, separated by one blank line. */
  function InputText(groups: seq<seq<nat>>): string
    requires |groups| >= 1 && WellFormed(groups)
  {
    if |groups| == 1 then GroupText(groups[0])
    else GroupText(groups[0]) + "\n\n" + InputText(groups[1..])
  }

  /** Text that can end a line: nothing, or a newline not followed by a digit. */
  predicate LineEnd(t: string) {
    t == [] || (t[0] == '\n' && DigitRun(t[1..]) == 0)
  }

  lemma {:induction false} DigitRunOfDigits(ds: string, t: string)
    requires AllDigits(ds)
    requires t == [] || !IsDigit(t[0])
    ensures DigitRun(ds + t) == |ds|
  {
    if ds != [] {
      assert (ds + t)[1..] == ds[1..] + t;
      DigitRunOfDigits(ds[1..], t);
    } else {
      assert ds + t == t;
    }
  }

  /** `u32` reads back what `Decimal` prints, and stops where the digits end. */
  lemma ParseDecimal(n: nat, t: string)
    requires n <= U32Max
    requires t == [] || !IsDigit(t[0])
    ensures ParseU32(Decimal(n) + t) == Done(t, n)
  {
    var s := Decimal(n) + t;
    DecimalDigits(n);
    DecimalValue(n);
    DigitRunOfDigits(Decimal(n), t);
    assert s[..|Decimal(n)|] == Decimal(n);
    assert s[|Decimal(n)|..] == t;
  }

  /** `parse_one_line` reads back one printed number and the newline after it, if any. */
  lemma LineRoundTrip(n: nat, t: string)
    requires n <= U32Max
    requires t == [] || !IsDigit(t[0])
    ensures ParseOneLine(Decimal(n) + t) == Done(OptNewline(t), n)
  {
    ParseDecimal(n, t);
  }

  /** The loop over lines stops, consuming nothing, where no number starts. */
  lemma MoreLinesStops(s: string)
    requires DigitRun(s) == 0
    ensures MoreLines(s) == Done(s, [])
  {
    assert !StartsWithU32(s);
  }

  /** One more round of the loop over lines. */
  lemma MoreLinesStep(s: string, rest: string, n: nat)
    requires ParseOneLine(s) == Done(rest, n)
    ensures MoreLines(s) == Done(MoreLines(rest).rest, [n] + MoreLines(rest).value)
  {
  }

  /** The loop over lines on a printed number followed by a newline: it reads
      the number and carries on after the newline. */
  lemma MoreLinesFirst(n: nat, tail: string, end: string, g: seq<nat>)
    requires n <= U32Max
    requires MoreLines(tail) == Done(end, g)
    ensures MoreLines(Decimal(n) + ("\n" + tail)) == Done(end, [n] + g)
  {
    var s := Decimal(n) + ("\n" + tail);
    assert ParseOneLine(s) == Done(tail, n) by {
      LineRoundTrip(n, "\n" + tail);
      assert OptNewline("\n" + tail) == tail;
    }
    MoreLinesStep(s, tail, n);
  }

  /** The loop over lines on the last printed number: it is read, then the loop stops. */
  lemma MoreLinesLast(n: nat, t: string)
    requires n <= U32Max && LineEnd(t)
    ensures MoreLines(Decimal(n) + t) == Done(OptNewline(t), [n])
  {
    var s := Decimal(n) + t;
    assert ParseOneLine(s) == Done(OptNewline(t), n) by {
      LineRoundTrip(n, t);
    }
    assert MoreLines(OptNewline(t)) == Done(OptNewline(t), []) by {
      assert DigitRun(OptNewline(t)) == 0;
      MoreLinesStops(OptNewline(t));
    }
    MoreLinesStep(s, OptNewline(t), n);
    assert [n] + [] == [n];
  }

  /** A printed group followed by `t`, split after its first line. */
  lemma GroupTextCons(g: seq<nat>, t: string)
    requires |g| >= 2
    ensures GroupText(g) + t == Decimal(g[0]) + ("\n" + (GroupText(g[1..]) + t))
  {
  }

  /** The loop over lines on a one-line group. */
  lemma MoreLinesOne(g: seq<nat>, t: string)
    requires |g| == 1 && g[0] <= U32Max && LineEnd(t)
    ensures MoreLines(GroupText(g) + t) == Done(OptNewline(t), g)
  {
    MoreLinesLast(g[0], t);
    assert [g[0]] == g;
  }

  /** The loop over lines on a group of several lines, given what it does on
      the lines after the first. */
  lemma MoreLinesMany(g: seq<nat>, t: string, end: string)
    requires |g| >= 2 && g[0] <= U32Max
    requires MoreLines(GroupText(g[1..]) + t) == Done(end, g[1..])
    ensures MoreLines(GroupText(g) + t) == Done(end, g)
  {
    var tail := GroupText(g[1..]) + t;
    var s := Decimal(g[0]) + ("\n" + tail);
    calc {
      MoreLines(GroupText(g) + t);
      { GroupTextCons(g, t); }
      MoreLines(s);
      { MoreLinesFirst(g[0], tail, end, g[1..]); }
      Done(end, [g[0]] + g[1..]);
      { assert [g[0]] + g[1..] == g; }
      Done(end, g);
    }
  }

  /** All lines of a printed group are read back; the line after them fails. */
  lemma {:induction false} MoreLinesRoundTrip(g: seq<nat>, t: string)
    requires |g| >= 1 && forall j :: 0 <= j < |g| ==> g[j] <= U32Max
    requires LineEnd(t)
    ensures MoreLines(GroupText(g) + t) == Done(OptNewline(t), g)
  {
    if |g| == 1 {
      MoreLinesOne(g, t);
    } else {
      assert forall j :: 0 <= j < |g[1..]| ==> g[1..][j] <= U32Max;
      MoreLinesRoundTrip(g[1..], t);
      MoreLinesMany(g, t, OptNewline(t));
    }
  }

  /** `parse_one_group` reads back a printed group and then one line end. */
  lemma GroupRoundTrip(g: seq<nat>, t: string)
    requires |g| >= 1 && forall j :: 0 <= j < |g| ==> g[j] <= U32Max
    requires LineEnd(t)
    ensures ParseOneGroup(GroupText(g) + t) == Done(OptNewline(OptNewline(t)), g)
  {
    MoreLinesRoundTrip(g, t);
  }

  /** The loop over groups stops, consuming nothing, where no number starts. */
  lemma MoreGroupsStops(s: string)
    requires DigitRun(s) == 0
    ensures MoreGroups(s) == Done(s, [])
  {
    assert !StartsWithU32(s);
  }

  /** One more round of the loop over groups. */
  lemma MoreGroupsStep(s: string, rest: string, g: seq<nat>)
    requires ParseOneGroup(s) == Done(rest, g)
    ensures MoreGroups(s) == Done(MoreGroups(rest).rest, [g] + MoreGroups(rest).value)
  {
  }

  /** A printed group followed by a blank line is read back up to the text after the blank line. */
  lemma GroupThenBlankLine(g: seq<nat>, tail: string)
    requires |g| >= 1 && forall j :: 0 <= j < |g| ==> g[j] <= U32Max
    ensures ParseOneGroup(GroupText(g) + ("\n\n" + tail)) == Done(tail, g)
  {
    var sep := "\n\n" + tail;
    assert sep[1..] == "\n" + tail;
    GroupRoundTrip(g, sep);
  }

  /** The loop over groups on the last printed group: it is read, then the loop stops. */
  lemma MoreGroupsLast(g: seq<nat>, t: string)
    requires |g| >= 1 && forall j :: 0 <= j < |g| ==> g[j] <= U32Max
    requires LineEnd(t) && DigitRun(OptNewline(OptNewline(t))) == 0
    ensures MoreGroups(GroupText(g) + t) == Done(OptNewline(OptNewline(t)), [g])
  {
    var s, end := GroupText(g) + t, OptNewline(OptNewline(t));
    assert ParseOneGroup(s) == Done(end, g) by {
      GroupRoundTrip(g, t);
    }
    assert MoreGroups(end) == Done(end, []) by {
      MoreGroupsStops(end);
    }
    MoreGroupsStep(s, end, g);
    assert [g] + [] == [g];
  }

  /** The loop over groups on a printed group followed by a blank line: it
      reads the group and carries on after the blank line. */
  lemma MoreGroupsFirst(g: seq<nat>, tail: string, end: string, groups: seq<seq<nat>>)
    requires |g| >= 1 && forall j :: 0 <= j < |g| ==> g[j] <= U32Max
    requires MoreGroups(tail) == Done(end, groups)
    ensures MoreGroups(GroupText(g) + ("\n\n" + tail)) == Done(end, [g] + groups)
  {
    var s := GroupText(g) + ("\n\n" + tail);
    assert ParseOneGroup(s) == Done(tail, g) by {
      GroupThenBlankLine(g, tail);
    }
    MoreGroupsStep(s, tail, g);
  }

  /** Printed groups followed by `t`, split after the first group and its blank line. */
  lemma InputTextCons(groups: seq<seq<nat>>, t: string)
    requires |groups| >= 2 && WellFormed(groups)
    ensures InputText(groups) + t == GroupText(groups[0]) + ("\n\n" + (InputText(groups[1..]) + t))
  {
  }

  /** The loop over groups on a single group. */
  lemma MoreGroupsOne(groups: seq<seq<nat>>, t: string)
    requires |groups| == 1 && WellFormed(groups)
    requires LineEnd(t) && DigitRun(OptNewline(OptNewline(t))) == 0
    ensures MoreGroups(InputText(groups) + t) == Done(OptNewline(OptNewline(t)), groups)
  {
    assert InputText(groups) == GroupText(groups[0]);
    MoreGroupsLast(groups[0], t);
    assert [groups[0]] == groups;
  }

  /** The loop over groups on several groups, given what it does on the groups after the first. */
  lemma MoreGroupsMany(groups: seq<seq<nat>>, t: string, end: string)
    requires |groups| >= 2 && WellFormed(groups)
    requires MoreGroups(InputText(groups[1..]) + t) == Done(end, groups[1..])
    ensures MoreGroups(InputText(groups) + t) == Done(end, groups)
  {
    WellFormedCons(groups);
    var tail := InputText(groups[1..]) + t;
    calc {
      MoreGroups(InputText(groups) + t);
      { InputTextCons(groups, t); }
      MoreGroups(GroupText(groups[0]) + ("\n\n" + tail));
      { MoreGroupsFirst(groups[0], tail, end, groups[1..]); }
      Done(end, [groups[0]] + groups[1..]);
    }
  }

  /** A well-formed list splits into a well-formed first group and a well-formed rest. */
  lemma WellFormedCons(groups: seq<seq<nat>>)
    requires |groups| >= 1 && WellFormed(groups)
    ensures |groups[0]| >= 1 && forall j :: 0 <= j < |groups[0]| ==> groups[0][j] <= U32Max
    ensures WellFormed(groups[1..]) && [groups[0]] + groups[1..] == groups
  {
  }

  /** The loop over groups reads back every printed group, provided the text
      after the last one does not start another group. */
  lemma {:induction false} MoreGroupsRoundTrip(groups: seq<seq<nat>>, t: string)
    requires |groups| >= 1 && WellFormed(groups)
    requires LineEnd(t) && DigitRun(OptNewline(OptNewline(t))) == 0
    ensures MoreGroups(InputText(groups) + t) == Done(OptNewline(OptNewline(t)), groups)
  {
    if |groups| == 1 {
      MoreGroupsOne(groups, t);
    } else {
      assert WellFormed(groups[1..]);
      MoreGroupsRoundTrip(groups[1..], t);
      MoreGroupsMany(groups, t, OptNewline(OptNewline(t)));
    }
  }

  /** Once a first group is there, `many1` behaves as its own loop. */
  lemma ParseInputIsMoreGroups(s: string)
    requires ParseOneGroup(s).Done?
    ensures ParseInput(s) == MoreGroups(s)
  {
  }

  /** `parse_input` on printed groups followed by `t`, when `t` does not start another group. */
  lemma ParseInputOfText(groups: seq<seq<nat>>, t: string)
    requires |groups| >= 1 && WellFormed(groups)
    requires LineEnd(t) && DigitRun(OptNewline(OptNewline(t))) == 0
    ensures ParseInput(InputText(groups) + t) == Done(OptNewline(OptNewline(t)), groups)
  {
    var s := InputText(groups) + t;
    assert MoreGroups(s) == Done(OptNewline(OptNewline(t)), groups) by {
      MoreGroupsRoundTrip(groups, t);
    }
    assert ParseOneGroup(s).Done?;
    ParseInputIsMoreGroups(s);
  }

  /** Round trip: `parse_input` reads back any well-formed list of groups
      printed with blank lines between them, followed by no newline, one or
      two, and consumes the whole text. */
  lemma ParseInputRoundTrip(groups: seq<seq<nat>>, trailer: string)
    requires |groups| >= 1 && WellFormed(groups)
    requires trailer in ["", "\n", "\n\n"]
    ensures ParseInput(InputText(groups) + trailer) == Done("", groups)
  {
    assert LineEnd(trailer) && OptNewline(OptNewline(trailer)) == "";
    ParseInputOfText(groups, trailer);
  }

  /** A second blank line is not skipped: `parse_input` stops in front of it
      and leaves it, and what follows, unread. */
  lemma ParseInputStopsAtSecondBlankLine(groups: seq<seq<nat>>, more: string)
    requires |groups| >= 1 && WellFormed(groups)
    requires more != [] && more[0] == '\n'
    ensures ParseInput(InputText(groups) + ("\n\n" + more)) == Done(more, groups)
  {
    var t := "\n\n" + more;
    assert t[0] == '\n' && t[1..] == "\n" + more;
    assert OptNewline(t) == "\n" + more;
    assert OptNewline("\n" + more) == more;
    assert DigitRun(t[1..]) == 0 by {
      assert !IsDigit(t[1..][0]);
    }
    assert DigitRun(more) == 0 by {
      assert !IsDigit(more[0]);
    }
    ParseInputOfText(groups, t);
  }

  /** The repository's `EXAMPLE_INPUT`, written as its groups joined by blank
      lines; the concatenation is the same fourteen-line string. */
  const ExampleInput: string :=
    "1000\n2000\n3000" + "\n\n" +
    ("4000" + "\n\n" +
    ("5000\n6000" + "\n\n" +
    ("7000\n8000\n9000" + "\n\n" +
    "10000")))

  const ExampleGroups: seq<seq<nat>> :=
    [[1000, 2000, 3000], [4000], [5000, 6000], [7000, 8000, 9000], [10000]]

  lemma {:induction false} DecimalTimesTen(n: nat)
    requires n >= 1
    ensures Decimal(10 * n) == Decimal(n) + "0"
  {
    var m := 10 * n;
    assert m / 10 == n && m % 10 == 0;
    assert DigitChar(0) == '0';
  }

  /** A whole number of thousands below ten thousand prints as its digit and three zeros. */
  lemma DecimalThousands(k: nat, c: char)
    requires 1 <= k <= 9 && c as int == '0' as int + k
    ensures Decimal(1000 * k) == [c] + "000"
  {
    DecimalTimesTen(k);
    DecimalTimesTen(10 * k);
    DecimalTimesTen(100 * k);
  }

  /** The example's groups, printed, one group at a time. */
  lemma ExampleGroupText0()
    ensures GroupText(ExampleGroups[0]) == "1000\n2000\n3000"
  {
    DecimalThousands(1, '1');
    DecimalThousands(2, '2');
    DecimalThousands(3, '3');
  }

  lemma ExampleGroupText1()
    ensures GroupText(ExampleGroups[1]) == "4000"
  {
    DecimalThousands(4, '4');
  }

  lemma ExampleGroupText2()
    ensures GroupText(ExampleGroups[2]) == "5000\n6000"
  {
    DecimalThousands(5, '5');
    DecimalThousands(6, '6');
  }

  lemma ExampleGroupText3()
    ensures GroupText(ExampleGroups[3]) == "7000\n8000\n9000"
  {
    DecimalThousands(7, '7');
    DecimalThousands(8, '8');
    DecimalThousands(9, '9');
  }

  lemma ExampleGroupText4()
    ensures GroupText(ExampleGroups[4]) == "10000"
  {
    DecimalThousands(1, '1');
    DecimalTimesTen(1000);
  }

  /** Five groups printed with blank lines between them. */
  lemma InputTextOfFive(g: seq<seq<nat>>)
    requires |g| == 5 && WellFormed(g)
    ensures InputText(g) == GroupText(g[0]) + "\n\n" + (GroupText(g[1]) + "\n\n" + (GroupText(g[2]) + "\n\n" + (GroupText(g[3]) + "\n\n" + GroupText(g[4]))))
  {
    assert g[1..][1..] == g[2..] && g[2..][1..] == g[3..] && g[3..][1..] == g[4..];
    assert InputText(g[4..]) == GroupText(g[4]);
    assert InputText(g[3..]) == GroupText(g[3]) + "\n\n" + InputText(g[4..]);
    assert InputText(g[2..]) == GroupText(g[2]) + "\n\n" + InputText(g[3..]);
    assert InputText(g[1..]) == GroupText(g[1]) + "\n\n" + InputText(g[2..]);
  }

  /** `EXAMPLE_INPUT` is exactly the example's groups printed with blank lines between them. */
  lemma ExampleText()
    ensures InputText(ExampleGroups) == ExampleInput
  {
    ExampleWellFormed();
    InputTextOfFive(ExampleGroups);
    ExampleGroupText0();
    ExampleGroupText1();
    ExampleGroupText2();
    ExampleGroupText3();
    ExampleGroupText4();
  }

  /** The example's groups are well formed. */
  lemma ExampleWellFormed()
    ensures |ExampleGroups| == 5 && WellFormed(ExampleGroups)
  {
  }

  /** `parse_example_input`: the example parses to its five groups with no input left. */
  lemma ParseExampleInput()
    ensures ParseInput(ExampleInput) == Done("", ExampleGroups)
  {
    ExampleWellFormed();
    assert ParseInput(InputText(ExampleGroups) + "") == Done("", ExampleGroups) by {
      ParseInputRoundTrip(ExampleGroups, "");
    }
    assert InputText(ExampleGroups) + "" == ExampleInput by {
      ExampleText();
    }
  }

  // ---------------------------------------------------------------------------
  // The two reducers.

  /** The sum of each group, in order. */
  function GroupSums(groups: seq<seq<nat>>): (sums: seq<nat>)
    ensures |sums| == |groups|
    ensures forall i :: 0 <= i < |groups| ==> sums[i] == Sum(groups[i])
  {
    seq(|groups|, i requires 0 <= i < |groups| => Sum(groups[i]))
  }

  /** `do_puzzle`: the largest group sum; 0 when there is no group. */
  function DoPuzzle(groups: seq<seq<nat>>): (r: nat)
    ensures groups == [] ==> r == 0
    ensures forall i :: 0 <= i < |groups| ==> Sum(groups[i]) <= r
    ensures groups != [] ==> exists i :: 0 <= i < |groups| && r == Sum(groups[i])
  {
    match Maximum(GroupSums(groups))
    case None => 0
    case Some(m) => m
  }

  /** The largest group sum is the only value that is a group sum and at least every group sum. */
  lemma DoPuzzleUnique(groups: seq<seq<nat>>, v: nat)
    requires v in GroupSums(groups)
    requires forall i :: 0 <= i < |groups| ==> Sum(groups[i]) <= v
    ensures v == DoPuzzle(groups)
  {
    var sums := GroupSums(groups);
    var i :| 0 <= i < |sums| && sums[i] == v;
    var j :| 0 <= j < |groups| && DoPuzzle(groups) == Sum(groups[j]);
  }

  /** `do_example_input`: the example's largest group sum is 24000. */
  lemma DoPuzzleExample()
    ensures DoPuzzle(ExampleGroups) == 24000
  {
    assert Sum(ExampleGroups[3]) == 24000;
    DoPuzzleUnique(ExampleGroups, 24000);
  }

  /** The first three elements of a descending rearrangement `m` of the group
      sums are three of the sums, largest first; none of the other sums exceeds
      the third, and the first is `do_puzzle`'s answer. */
  lemma TopThreeOfDescending(groups: seq<seq<nat>>, m: seq<nat>, top: seq<nat>)
    requires Descending(m) && multiset(m) == multiset(GroupSums(groups)) && |m| >= 3
    requires top == [m[0], m[1], m[2]]
    ensures |top| == 3 && top[0] >= top[1] >= top[2]
    ensures multiset(top) <= multiset(GroupSums(groups))
    ensures forall x :: x in multiset(GroupSums(groups)) - multiset(top) ==> x <= top[2]
    ensures top[0] == DoPuzzle(groups)
  {
    DescendingSplit(m, 3);
    assert top == m[..3];
    assert m == m[..3] + m[3..];
    assert multiset(m) == multiset(m[..3]) + multiset(m[3..]);
    HeadOfDescendingSums(m, groups);
  }

  /** The head of a descending rearrangement of the group sums is `do_puzzle`'s answer. */
  lemma HeadOfDescendingSums(m: seq<nat>, groups: seq<seq<nat>>)
    requires Descending(m) && multiset(m) == multiset(GroupSums(groups)) && |m| >= 1
    ensures m[0] == DoPuzzle(groups)
  {
    var sums := GroupSums(groups);
    forall i | 0 <= i < |groups| ensures Sum(groups[i]) <= m[0] {
      assert sums[i] in multiset(m);
      var j :| 0 <= j < |m| && m[j] == sums[i];
      assert j == 0 || m[0] >= m[j];
    }
    assert m[0] in multiset(sums);
    DoPuzzleUnique(groups, m[0]);
  }

  /** `do_puzzle_extra`: the group sums are sorted in place, reversed in place,
      and the first three are returned. The caller must supply at least three
      groups (with fewer, the source's `middle[2]` panics). The result is the
      three largest sums, largest first: taken out of the sums, they leave
      only values no larger than the third, and the first is `do_puzzle`'s answer. */
  method DoPuzzleExtra(groups: seq<seq<nat>>) returns (top: seq<nat>)
    requires |groups| >= 3
    ensures |top| == 3 && top[0] >= top[1] >= top[2]
    ensures multiset(top) <= multiset(GroupSums(groups))
    ensures forall x :: x in multiset(GroupSums(groups)) - multiset(top) ==> x <= top[2]
    ensures top[0] == DoPuzzle(groups)
  {
    var sums := GroupSums(groups);
    var middle := Collect(sums);

    SortInPlace(middle);
    ghost var ascending := middle[..];
    ReverseInPlace(middle);

    top := [middle[0], middle[1], middle[2]];

    ghost var m := middle[..];
    assert Descending(m) && multiset(m) == multiset(sums) by {
      ReversedAscending(ascending);
      ReversedPermutes(ascending);
    }
    TopThreeOfDescending(groups, m, top);
  }
}
