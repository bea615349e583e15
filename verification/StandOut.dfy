/**
  The reformatter that makes a function's name stand out in a call stack.

  The code edits one string in place while an index runs backward over it.  The
  specification is a fold over two strings: what the index has not reached, and what it
  has left behind.
*/
module StandOut {
  import opened MachineWords

  // size_t wraps.
  function Inc(n: nat): nat { if n == WORD - 1 then 0 else n + 1 }

  function Dec(n: nat): nat { if n == 0 then WORD - 1 else n - 1 }

  datatype Flags = Flags(angle: nat, paren: nat, hitEnd: bool, hitStart: bool)

  function Count(f: Flags, c: char): Flags {
    if c == '>' then f.(angle := Inc(f.angle))
    else if c == '<' then f.(angle := Dec(f.angle))
    else if c == ')' then f.(paren := Inc(f.paren))
    else if c == '(' then f.(paren := Dec(f.paren))
    else f
  }

  function DropSpace(s: string): string {
    if s != [] && s[0] == ' ' then s[1..] else s
  }

  lemma DropsOneSpace(s: string)
    ensures DropSpace(" " + s) == s
    ensures s == [] || s[0] != ' ' ==> DropSpace(s) == s
  {
    assert (" " + s)[1..] == s;
  }

  // What follows a comma: one space less, and two more between top-level arguments.
  function AfterComma(f: Flags, rest: string): string {
    if !f.hitEnd && f.angle == 0 && f.paren == 1 then "  " + DropSpace(rest) else DropSpace(rest)
  }

  predicate AtEnd(f: Flags, before: string, c: char) {
    && (c == '(' || c == '<')
    && f.paren == 0 && f.angle == 0
    && (before == [] || before[|before| - 1] != '>')
    && !f.hitEnd && !f.hitStart
  }

  predicate AtStart(f: Flags, before: string, c: char) {
    && (c == ' ' || c == ':' || c == '>')
    && f.hitEnd && !f.hitStart
    && before != []
  }

  // The name's two markers.
  function Mark(f: Flags, before: string, c: char, rest: string): (string, Flags) {
    if AtEnd(f, before, c) then ("  " + [c] + rest, f.(hitEnd := true))
    else if AtStart(f, before, c) then ([c] + (if c != ' ' then "  " else " ") + rest, f.(hitStart := true))
    else ([c] + rest, f)
  }

  function Visit(f: Flags, before: string, c: char, rest: string): (string, Flags) {
    Mark(f, before, c, if c == ',' then AfterComma(f, rest) else rest)
  }

  predicate Dropped(c: char, after: string) { c == ' ' && after != [] && after[0] == '>' }

  // One character: a space in front of '>' is dropped, and the '>' visited again.
  function Step(f: Flags, before: string, c: char, after: string): (string, Flags) {
    if Dropped(c, after) then Visit(Count(f, c), before, '>', after[1..])
    else Visit(Count(f, c), before, c, after)
  }

  function Scan(f: Flags, before: string, after: string): string
    decreases |before|
  {
    if before == [] then after
    else
      var n := |before| - 1;
      var (next, g) := Step(f, before[..n], before[n], after);
      Scan(g, before[..n], next)
  }

  lemma ScanOne(f: Flags, before: string, c: char, after: string)
    ensures Scan(f, before + [c], after) == Scan(Step(f, before, c, after).1, before, Step(f, before, c, after).0)
  {
    assert (before + [c])[..|before|] == before;
  }

  predicate Modifier(c: char) { c == ' ' || 'a' <= c <= 'z' }

  // The length of the name once trailing modifiers are cut off; all of it when nothing else is left.
  function NameLength(s: string, n: nat): (r: nat)
    requires n <= |s|
    ensures r <= |s|
    ensures if forall k :: 0 <= k < n ==> Modifier(s[k]) then r == |s|
            else 0 < r <= n && !Modifier(s[r - 1]) && forall k :: r <= k < n ==> Modifier(s[k])
  {
    if n == 0 then |s|
    else if s[n - 1] == ' ' || 'a' <= s[n - 1] <= 'z' then NameLength(s, n - 1)
    else n
  }

  function Initial(name: string): Flags {
    Flags(0, 0, !(name != [] && name[|name| - 1] == ')'), false)
  }

  function Reformatted(orig: string): string {
    var n := NameLength(orig, |orig|);
    Scan(Initial(orig[..n]), orig[..n], "") + orig[n..]
  }

  // ------------------------------------------------------------------ the code

  // Nested <> and (), seen from the right.
  method CountDepth(c: char, f: Flags) returns (angleDepth: nat, parenDepth: nat)
    ensures f.(angle := angleDepth, paren := parenDepth) == Count(f, c)
  {
    angleDepth, parenDepth := f.angle, f.paren;
    if c == '>' {
      angleDepth := Inc(angleDepth);
    } else if c == '<' {
      angleDepth := Dec(angleDepth);
    } else if c == ')' {
      parenDepth := Inc(parenDepth);
    } else if c == '(' {
      parenDepth := Dec(parenDepth);
    }
  }

  method CloseAngle(name0: string, i: nat, ghost before: string, ghost c: char, ghost after: string)
    returns (name: string, ghost cur: char, ghost rest: string)
    requires name0 == before + [c] + after && i == |before|
    ensures name == before + if Dropped(c, after) then after else [c] + after
    ensures name == before + [cur] + rest
    ensures (cur, rest) == if Dropped(c, after) then ('>', after[1..]) else (c, after)
  {
    name, cur, rest := name0, c, after;
    if name[i] == ' ' && i + 1 < |name| && name[i + 1] == '>' {
      name := name[..i] + name[i + 1..];
      cur, rest := '>', after[1..];
      assert after == ['>'] + rest;
    }
  }

  // Spaces around a comma at index i.
  method SpaceComma(name0: string, i: nat, f: Flags, ghost before: string, ghost rest: string) returns (name: string)
    requires name0 == before + [','] + rest && i == |before|
    ensures name == before + [','] + AfterComma(f, rest)
  {
    name := name0;
    if i + 1 < |name| && name[i + 1] == ' ' {
      name := name[..i + 1] + name[i + 2..];
    }
    assert name == before + [','] + DropSpace(rest);
    if !f.hitEnd && f.angle == 0 && f.paren == 1 {
      name := name[..i + 1] + "  " + name[i + 1..];
    }
  }

  // The two markers around the function's own name, tried at index i.
  method PlaceMarkers(name0: string, i: nat, f: Flags, ghost before: string, ghost c: char, ghost rest: string)
    returns (name: string, hitEnd: bool, hitStart: bool)
    requires name0 == before + [c] + rest && i == |before|
    ensures name == before + Mark(f, before, c, rest).0
    ensures f.(hitEnd := hitEnd, hitStart := hitStart) == Mark(f, before, c, rest).1
  {
    name, hitEnd, hitStart := name0, f.hitEnd, f.hitStart;
    if (name[i] == '(' || name[i] == '<') && f.paren == 0 && f.angle == 0
       && (i == 0 || name[i - 1] != '>') && !hitEnd && !hitStart {
      hitEnd := true;
      name := name[..i] + "  " + name[i..];
    } else if (name[i] == ' ' || name[i] == ':' || name[i] == '>') && hitEnd && !hitStart && i > 0 {
      if name[i] != ' ' {
        name := name[..i + 1] + " " + name[i + 1..];
      }
      name := name[..i + 1] + " " + name[i + 1..];
      hitStart := true;
    }
  }

  method MakeFunctionNameStandOut(orig: string) returns (r: string)
    ensures r == Reformatted(orig)
  {
    var pos := NameLength(orig, |orig|);
    var name, modifiers := orig[..pos], orig[pos..];
    ghost var start, after := name, "";
    var hasArgList := name != [] && name[|name| - 1] == ')';
    var angleDepth, parenDepth := 0, 0;
    var hitEnd, hitStart := !hasArgList, false;
    var i := |name|;
    assert start[..i] == start;
    while i > 0
      invariant 0 <= i <= |start| && name == start[..i] + after
      invariant Scan(Flags(angleDepth, parenDepth, hitEnd, hitStart), start[..i], after)
             == Scan(Initial(start), start, "")
    {
      i := i - 1;
      ghost var before, cur, rest := start[..i], start[i], after;
      ghost var next := Step(Flags(angleDepth, parenDepth, hitEnd, hitStart), before, cur, rest);
      ScanOne(Flags(angleDepth, parenDepth, hitEnd, hitStart), before, cur, rest);
      assert start[..i + 1] == before + [cur];
      angleDepth, parenDepth := CountDepth(name[i], Flags(angleDepth, parenDepth, hitEnd, hitStart));
      var f := Flags(angleDepth, parenDepth, hitEnd, hitStart);
      name, cur, rest := CloseAngle(name, i, before, cur, rest);
      assert next == Visit(f, before, cur, rest);
      if name[i] == ',' {
        name := SpaceComma(name, i, f, before, rest);
        rest := AfterComma(f, rest);
      }
      name, hitEnd, hitStart := PlaceMarkers(name, i, f, before, cur, rest);
      after := next.0;
    }
    r := name + modifiers;
  }

  // ------------------------------------------------------------------ only spaces change

  function NoSpaces(s: string): string {
    if s == [] then [] else (if s[0] == ' ' then [] else [s[0]]) + NoSpaces(s[1..])
  }

  lemma {:induction false} NoSpacesConcat(a: string, b: string)
    ensures NoSpaces(a + b) == NoSpaces(a) + NoSpaces(b)
  {
    if a == [] {
      assert a + b == b;
    } else {
      assert (a + b)[1..] == a[1..] + b;
      NoSpacesConcat(a[1..], b);
    }
  }

  lemma NoSpacesLead(s: string)
    ensures NoSpaces(" " + s) == NoSpaces(s)
    ensures NoSpaces("  " + s) == NoSpaces(s)
    ensures NoSpaces(DropSpace(s)) == NoSpaces(s)
  {
    assert "  " + s == " " + (" " + s);
    assert (" " + s)[1..] == s;
    assert (" " + (" " + s))[1..] == " " + s;
  }

  lemma CommaKeepsText(f: Flags, rest: string)
    ensures NoSpaces(AfterComma(f, rest)) == NoSpaces(rest)
  {
    NoSpacesLead(rest);
    NoSpacesLead(DropSpace(rest));
  }

  lemma WidenedInside(left: string, gap: string, right: string)
    requires NoSpaces(gap) == []
    ensures NoSpaces(left + gap + right) == NoSpaces(left + right)
  {
    NoSpacesConcat(left + gap, right);
    NoSpacesConcat(left, gap);
    NoSpacesConcat(left, right);
  }

  lemma WidenedInFront(gap: string, right: string)
    requires NoSpaces(gap) == []
    ensures NoSpaces(gap + right) == NoSpaces(right)
  {
    NoSpacesConcat(gap, right);
  }

  lemma MarkKeepsText(f: Flags, before: string, c: char, rest: string)
    ensures NoSpaces(Mark(f, before, c, rest).0) == NoSpaces([c] + rest)
  {
    WidenedInside([c], "  ", rest);
    WidenedInside([c], " ", rest);
    WidenedInFront("  ", [c] + rest);
    assert "  " + [c] + rest == "  " + ([c] + rest);
  }

  lemma StepKeepsText(f: Flags, before: string, c: char, after: string)
    ensures NoSpaces(Step(f, before, c, after).0) == NoSpaces([c] + after)
  {
    var g := Count(f, c);
    if Dropped(c, after) {
      MarkKeepsText(g, before, '>', after[1..]);
      NoSpacesLead(after);
      assert ['>'] + after[1..] == after && [c] + after == " " + after;
    } else if c == ',' {
      MarkKeepsText(g, before, c, AfterComma(g, after));
      CommaKeepsText(g, after);
      NoSpacesConcat([c], AfterComma(g, after));
      NoSpacesConcat([c], after);
    } else {
      MarkKeepsText(g, before, c, after);
    }
  }

  lemma TextAround(b: string, c: char, after: string, next: string)
    requires NoSpaces(next) == NoSpaces([c] + after)
    ensures NoSpaces(b + next) == NoSpaces(b + [c] + after)
  {
    NoSpacesConcat(b, next);
    NoSpacesConcat(b, [c] + after);
    assert b + ([c] + after) == b + [c] + after;
  }

  lemma {:induction false} ScanKeepsText(f: Flags, before: string, after: string)
    ensures NoSpaces(Scan(f, before, after)) == NoSpaces(before + after)
    decreases |before|
  {
    if before == [] {
      assert before + after == after;
    } else {
      var b, c := before[..|before| - 1], before[|before| - 1];
      StepKeepsText(f, b, c, after);
      TextAround(b, c, after, Step(f, b, c, after).0);
      assert b + [c] == before;
      ScanKeepsText(Step(f, b, c, after).1, b, Step(f, b, c, after).0);
    }
  }

  lemma OnlySpacesChange(orig: string)
    ensures NoSpaces(Reformatted(orig)) == NoSpaces(orig)
  {
    var n := NameLength(orig, |orig|);
    ScanKeepsText(Initial(orig[..n]), orig[..n], "");
    assert orig[..n] + "" == orig[..n] && orig == orig[..n] + orig[n..];
    NoSpacesConcat(Scan(Initial(orig[..n]), orig[..n], ""), orig[n..]);
    NoSpacesConcat(orig[..n], orig[n..]);
  }

  // ------------------------------------------------------------------ each marker at most once

  // How often a scan does what: spaces erased, commas spread, markers placed at the end and at
  // the start of the name, and start markers that widen a space already there.
  datatype Tally = Tally(erased: nat, spread: nat, ends: nat, starts: nat, widened: nat) {
    function Plus(t: Tally): Tally {
      Tally(erased + t.erased, spread + t.spread, ends + t.ends, starts + t.starts, widened + t.widened)
    }
  }

  function Bit(b: bool): nat { if b then 1 else 0 }

  // The tally of one visit: the branches taken for character c, which may have become '>'.
  function VisitTally(f: Flags, before: string, c: char, rest: string): Tally {
    var start := !AtEnd(f, before, c) && AtStart(f, before, c);
    Tally(Bit(c == ',' && rest != [] && rest[0] == ' '),
          Bit(c == ',' && !f.hitEnd && f.angle == 0 && f.paren == 1),
          Bit(AtEnd(f, before, c)), Bit(start), Bit(start && c == ' '))
  }

  function StepTally(f: Flags, before: string, c: char, after: string): Tally {
    if Dropped(c, after) then ERASED.Plus(VisitTally(Count(f, c), before, '>', after[1..]))
    else VisitTally(Count(f, c), before, c, after)
  }

  function ScanTally(f: Flags, before: string, after: string): Tally
    decreases |before|
  {
    if before == [] then Tally(0, 0, 0, 0, 0)
    else
      var n := |before| - 1;
      var (next, g) := Step(f, before[..n], before[n], after);
      StepTally(f, before[..n], before[n], after).Plus(ScanTally(g, before[..n], next))
  }

  ghost predicate Accounts(f: Flags, length: nat, next: string, g: Flags, t: Tally) {
    && |next| + t.erased + t.widened == length + 2 * (t.spread + t.ends + t.starts)
    && Bit(g.hitEnd) == Bit(f.hitEnd) + t.ends && Bit(g.hitStart) == Bit(f.hitStart) + t.starts
  }

  lemma MarkLength(f: Flags, before: string, c: char, rest: string)
    ensures
      var (next, g) := Mark(f, before, c, rest);
      var start := !AtEnd(f, before, c) && AtStart(f, before, c);
      && |next| + Bit(start && c == ' ') == 1 + |rest| + 2 * (Bit(AtEnd(f, before, c)) + Bit(start))
      && g == f.(hitEnd := f.hitEnd || AtEnd(f, before, c), hitStart := f.hitStart || start)
  {}

  lemma VisitAccounts(f: Flags, before: string, c: char, rest: string)
    ensures
      var (next, g) := Visit(f, before, c, rest);
      Accounts(f, 1 + |rest|, next, g, VisitTally(f, before, c, rest))
  {
    MarkLength(f, before, c, if c == ',' then AfterComma(f, rest) else rest);
  }

  const ERASED: Tally := Tally(1, 0, 0, 0, 0)

  lemma AccountsFrom(f: Flags, f': Flags, length: nat, next: string, g: Flags, t: Tally)
    requires Accounts(f, length, next, g, t) && f'.hitEnd == f.hitEnd && f'.hitStart == f.hitStart
    ensures Accounts(f', length, next, g, t) && Accounts(f', length + 1, next, g, ERASED.Plus(t))
  {}

  lemma StepAccounts(f: Flags, before: string, c: char, after: string)
    ensures
      var (next, g) := Step(f, before, c, after);
      Accounts(f, 1 + |after|, next, g, StepTally(f, before, c, after))
  {
    var h := Count(f, c);
    var cur, rest := if Dropped(c, after) then '>' else c, if Dropped(c, after) then after[1..] else after;
    var (next, g) := Visit(h, before, cur, rest);
    VisitAccounts(h, before, cur, rest);
    AccountsFrom(h, f, 1 + |rest|, next, g, VisitTally(h, before, cur, rest));
  }

  lemma StepSpread(f: Flags, before: string, c: char, after: string)
    ensures StepTally(f, before, c, after).spread <= if f.hitEnd || c != ',' then 0 else 1
  {}

  function Commas(s: string): nat {
    if s == [] then 0 else Commas(s[..|s| - 1]) + Bit(s[|s| - 1] == ',')
  }

  ghost predicate Tallied(f: Flags, commas: nat, length: nat, out: nat, t: Tally) {
    && out + t.erased + t.widened == length + 2 * (t.spread + t.ends + t.starts)
    && Bit(f.hitEnd) + t.ends <= 1 && Bit(f.hitStart) + t.starts <= 1
    && t.spread <= if f.hitEnd then 0 else commas
  }

  lemma {:induction false} ScanAccounts(f: Flags, before: string, after: string)
    ensures Tallied(f, Commas(before), |before| + |after|, |Scan(f, before, after)|, ScanTally(f, before, after))
    decreases |before|
  {
    if before != [] {
      var n := |before| - 1;
      var init, c := before[..n], before[n];
      var (next, g) := Step(f, init, c, after);
      StepAccounts(f, init, c, after);
      StepSpread(f, init, c, after);
      ScanAccounts(g, init, next);
    }
  }

  // The end marker is placed at most once, and never in a name without arguments; the start
  // marker at most once; and nothing else but a comma's two spaces is ever inserted.
  lemma {:induction false} EachMarkerOnce(orig: string)
    ensures
      var n := NameLength(orig, |orig|);
      var f := Initial(orig[..n]);
      var t := ScanTally(f, orig[..n], "");
      && t.ends <= 1 && t.starts <= 1 && (f.hitEnd ==> t.ends == 0)
      && t.spread <= (if f.hitEnd then 0 else Commas(orig[..n]))
      && |Reformatted(orig)| + t.erased + t.widened == |orig| + 2 * (t.spread + t.ends + t.starts)
  {
    var n := NameLength(orig, |orig|);
    ScanAccounts(Initial(orig[..n]), orig[..n], "");
  }

  // ------------------------------------------------------------------ a plain signature

  predicate Bracket(c: char) { c == '<' || c == '>' || c == '(' || c == ')' }

  predicate Separator(c: char) { c == ',' || c == ':' || c == ' ' }

  // Arguments without nesting.
  predicate Flat(s: string) { forall k :: 0 <= k < |s| ==> !Bracket(s[k]) }

  predicate Word(s: string) { forall k :: 0 <= k < |s| ==> !Bracket(s[k]) && !Separator(s[k]) }

  // Text that both markers have passed.
  predicate Settled(s: string) { forall k :: 0 <= k < |s| ==> !Bracket(s[k]) && s[k] != ',' }

  // Each comma of an argument list is followed by two spaces more, one original space removed.
  function Spread(args: string, tail: string): string
    decreases |args|
  {
    if args == [] then tail
    else
      var n := |args| - 1;
      Spread(args[..n], if args[n] == ',' then ",  " + DropSpace(tail) else [args[n]] + tail)
  }

  lemma StepArgument(f: Flags, before: string, c: char, after: string)
    requires f == Flags(0, 1, false, false) && !Bracket(c) && after != [] && after[0] != '>'
    ensures Step(f, before, c, after) == (if c == ',' then ",  " + DropSpace(after) else [c] + after, f)
  {
    if c == ',' { assert ",  " + DropSpace(after) == [','] + ("  " + DropSpace(after)); }
  }

  lemma ScanArgument(f: Flags, all: string, before: string, c: char, after: string, next: string)
    requires f == Flags(0, 1, false, false) && !Bracket(c) && after != [] && after[0] != '>'
    requires all == before + [c] && next == if c == ',' then ",  " + DropSpace(after) else [c] + after
    ensures Scan(f, all, after) == Scan(f, before, next) && next != [] && next[0] != '>'
  {
    StepArgument(f, before, c, after);
    ScanOne(f, before, c, after);
  }

  lemma {:induction false} ScanArguments(f: Flags, before: string, args: string, after: string)
    requires f == Flags(0, 1, false, false) && Flat(args)
    requires after != [] && after[0] != '>'
    ensures Scan(f, before + args, after) == Scan(f, before, Spread(args, after))
    decreases |args|
  {
    if args == [] {
      assert before + args == before;
    } else {
      var n := |args| - 1;
      var next := if args[n] == ',' then ",  " + DropSpace(after) else [args[n]] + after;
      assert before + args == before + args[..n] + [args[n]];
      ScanArgument(f, before + args, before + args[..n], args[n], after, next);
      ScanArguments(f, before, args[..n], next);
    }
  }

  // Past the end marker, a name without separators is passed over unchanged.
  lemma {:induction false} ScanName(f: Flags, before: string, name: string, after: string)
    requires f == Flags(0, 0, true, false) && Word(name)
    ensures Scan(f, before + name, after) == Scan(f, before, name + after)
    decreases |name|
  {
    if name == [] {
      assert before + name == before && name + after == after;
    } else {
      var n := |name| - 1;
      var c := name[n];
      ScanOne(f, before + name[..n], c, after);
      assert before + name[..n] + [c] == before + name;
      ScanName(f, before, name[..n], [c] + after);
      assert name[..n] + ([c] + after) == name + after;
    }
  }

  // Past both markers, text without commas and angle brackets is passed over unchanged.
  lemma {:induction false} ScanRest(f: Flags, before: string, after: string)
    requires f == Flags(0, 0, true, true) && Settled(before) && (after == [] || after[0] != '>')
    ensures Scan(f, before, after) == before + after
    decreases |before|
  {
    if before == [] {
      assert before + after == after;
    } else {
      var n := |before| - 1;
      ScanRest(f, before[..n], [before[n]] + after);
      assert before[..n] + ([before[n]] + after) == before + after;
    }
  }

  lemma ModifiersEndAt(s: string, n: nat, p: nat)
    requires p < n <= |s|
    requires s[p] == ')' && forall k :: p < k < n ==> Modifier(s[k])
    ensures NameLength(s, n) == p + 1
    decreases n
  {
    if n > p + 1 {
      ModifiersEndAt(s, n - 1, p);
    }
  }

  lemma MarkEnd(before: string, rest: string)
    requires before != [] && before[|before| - 1] != '>'
    ensures Scan(Flags(0, 1, false, false), before + "(", rest) == Scan(Flags(0, 0, true, false), before, "  (" + rest)
  {
    ScanOne(Flags(0, 1, false, false), before, '(', rest);
    assert "  " + ['('] + rest == "  (" + rest;
  }

  function Gap(c: char): string { if c == ' ' then " " else "  " }

  lemma MarkStart(before: string, c: char, rest: string)
    requires before != [] && Settled(before) && (c == ' ' || c == ':')
    requires rest != [] && rest[0] != '>'
    ensures Scan(Flags(0, 0, true, false), before + [c], rest) == before + ([c] + Gap(c) + rest)
  {
    ScanOne(Flags(0, 0, true, false), before, c, rest);
    ScanRest(Flags(0, 0, true, true), before, [c] + Gap(c) + rest);
  }

  lemma CloseArguments(before: string)
    ensures Scan(Flags(0, 0, false, false), before + ")", "") == Scan(Flags(0, 1, false, false), before, ")")
  {
    ScanOne(Flags(0, 0, false, false), before, ')', "");
    assert [')'] + "" == ")";
  }

  lemma ScanSignature(left: string, name: string, args: string)
    requires name != [] && Word(name) && Flat(args)
    ensures Scan(Flags(0, 0, false, false), left + name + "(" + args + ")", "")
         == Scan(Flags(0, 0, true, false), left, name + ("  (" + Spread(args, ")")))
  {
    CloseArguments(left + name + "(" + args);
    ScanArguments(Flags(0, 1, false, false), left + name + "(", args, ")");
    MarkEnd(left + name, Spread(args, ")"));
    ScanName(Flags(0, 0, true, false), left, name, "  (" + Spread(args, ")"));
  }

  // A signature `qualifier name(arguments) modifiers`, where the qualifier ends in a space or
  // a colon: the name ends up between two spaces more on each side, the arguments spread out.
  lemma PlainSignature(qualifier: string, c: char, name: string, args: string, modifiers: string)
    requires qualifier != [] && Settled(qualifier) && (c == ' ' || c == ':')
    requires name != [] && Word(name) && Flat(args)
    requires forall k :: 0 <= k < |modifiers| ==> Modifier(modifiers[k])
    ensures Reformatted(qualifier + [c] + name + "(" + args + ")" + modifiers)
         == qualifier + ([c] + Gap(c) + (name + ("  (" + Spread(args, ")")))) + modifiers
  {
    var head := qualifier + [c] + name + "(" + args;
    var orig := head + ")" + modifiers;
    ModifiersEndAt(orig, |orig|, |head|);
    assert orig[..|head| + 1] == head + ")" && orig[|head| + 1..] == modifiers;
    ScanSignature(qualifier + [c], name, args);
    MarkStart(qualifier, c, name + ("  (" + Spread(args, ")")));
  }
}
