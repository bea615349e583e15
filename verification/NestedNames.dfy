/**
  What makes a function's name stand out, told by nesting: the depth of a position is the
  number of brackets closed to the right of it less those opened there.
*/
module NestedNames {
  import opened MachineWords
  import opened StandOut

  // Closing brackets from position i on, less opening ones.
  function Depth(s: string, i: nat, open: char, close: char): int
    requires i <= |s|
    decreases |s| - i
  {
    if i == |s| then 0
    else Depth(s, i + 1, open, close) + if s[i] == close then 1 else if s[i] == open then -1 else 0
  }

  // The two depths at position i; the program counts them in size_t.
  predicate At(s: string, i: nat, angle: nat, paren: nat)
    requires i <= |s|
  {
    Depth(s, i, '<', '>') % WORD == angle && Depth(s, i, '(', ')') % WORD == paren
  }

  // An outermost opening bracket that does not follow template arguments.
  predicate Opens(s: string, i: nat)
    requires i < |s|
  {
    (s[i] == '(' || s[i] == '<') && At(s, i, 0, 0) && (i == 0 || s[i - 1] != '>')
  }

  predicate HasArguments(s: string) { s != [] && s[|s| - 1] == ')' }

  // The end of the function's own name lies at or right of i; without arguments it is the end.
  ghost predicate EndedFrom(s: string, i: nat) {
    !HasArguments(s) || exists e :: i <= e < |s| && Opens(s, e)
  }

  ghost predicate EndsAt(s: string, i: nat)
    requires i < |s|
  {
    Opens(s, i) && !EndedFrom(s, i + 1)
  }

  // A space, colon or '>' left of the end of the name.
  ghost predicate Breaks(s: string, i: nat)
    requires i < |s|
  {
    (s[i] == ' ' || s[i] == ':' || s[i] == '>') && i > 0 && EndedFrom(s, i + 1)
  }

  ghost predicate StartedFrom(s: string, i: nat) { exists k :: i <= k < |s| && Breaks(s, k) }

  ghost predicate StartsAt(s: string, i: nat)
    requires i < |s|
  {
    Breaks(s, i) && !StartedFrom(s, i + 1)
  }

  // A comma between arguments: right of the name, inside one pair of parentheses and no
  // template brackets.
  ghost predicate SeparatesArguments(s: string, i: nat)
    requires i < |s|
  {
    s[i] == ',' && !EndedFrom(s, i + 1) && At(s, i, 0, 1)
  }

  // The text from i on: no space in front of '>', one space less behind a comma, two spaces
  // more behind a comma between arguments and around the name.
  ghost function Text(s: string, i: nat): string
    requires i <= |s|
    decreases |s| - i
  {
    if i == |s| then ""
    else
      var rest := Text(s, i + 1);
      if s[i] == ' ' && rest != [] && rest[0] == '>' then rest
      else if s[i] == ',' then (if SeparatesArguments(s, i) then ",  " else ",") + DropSpace(rest)
      else if EndsAt(s, i) then "  " + [s[i]] + rest
      else if StartsAt(s, i) then [s[i]] + Gap(s[i]) + rest
      else [s[i]] + rest
  }

  // ------------------------------------------------------------------ the fold computes it

  ghost function FlagsFrom(s: string, i: nat): Flags
    requires i <= |s|
  {
    Flags(Depth(s, i, '<', '>') % WORD, Depth(s, i, '(', ')') % WORD, EndedFrom(s, i), StartedFrom(s, i))
  }

  lemma EndedNext(s: string, i: nat)
    requires i < |s|
    ensures EndedFrom(s, i) <==> EndedFrom(s, i + 1) || Opens(s, i)
  {
  }

  lemma StartedNext(s: string, i: nat)
    requires i < |s|
    ensures StartedFrom(s, i) <==> StartedFrom(s, i + 1) || Breaks(s, i)
    ensures StartedFrom(s, i) ==> EndedFrom(s, i)
  {
  }

  lemma Wraps(x: int)
    ensures Inc(x % WORD) == (x + 1) % WORD && Dec(x % WORD) == (x - 1) % WORD
  {
  }

  lemma CountIsDepth(s: string, i: nat)
    requires i < |s|
    ensures Count(FlagsFrom(s, i + 1), s[i]) ==
              FlagsFrom(s, i).(hitEnd := EndedFrom(s, i + 1), hitStart := StartedFrom(s, i + 1))
  {
    Wraps(Depth(s, i + 1, '<', '>'));
    Wraps(Depth(s, i + 1, '(', ')'));
  }

  // A '>' that a space is dropped for was already visited.
  lemma {:induction false} CloseWasVisited(s: string, i: nat)
    requires 0 < i <= |s| && Text(s, i) != [] && Text(s, i)[0] == '>' && EndedFrom(s, i)
    ensures StartedFrom(s, i)
    decreases |s| - i
  {
    EndedNext(s, i);
    StartedNext(s, i);
    if s[i] == ' ' { CloseWasVisited(s, i + 1); }
  }

  lemma MarkIsText(s: string, i: nat, f: Flags, c: char, rest: string)
    requires i < |s| && c == s[i] && c != ','
    requires f == FlagsFrom(s, i).(hitEnd := EndedFrom(s, i + 1), hitStart := StartedFrom(s, i + 1))
    ensures Mark(f, s[..i], c, rest) ==
              (if EndsAt(s, i) then "  " + [c] + rest
               else if StartsAt(s, i) then [c] + Gap(c) + rest
               else [c] + rest, FlagsFrom(s, i))
  {
    EndedNext(s, i);
    StartedNext(s, i);
    if i < |s| - 1 { StartedNext(s, i + 1); }
  }

  lemma {:induction false} StepIsText(s: string, i: nat)
    requires i < |s|
    ensures Step(FlagsFrom(s, i + 1), s[..i], s[i], Text(s, i + 1)) == (Text(s, i), FlagsFrom(s, i))
  {
    var f, rest := Count(FlagsFrom(s, i + 1), s[i]), Text(s, i + 1);
    CountIsDepth(s, i);
    EndedNext(s, i);
    StartedNext(s, i);
    if Dropped(s[i], rest) {
      if EndedFrom(s, i + 1) { CloseWasVisited(s, i + 1); }
      assert ['>'] + rest[1..] == rest;
    } else if s[i] == ',' {
      assert [','] + ("  " + DropSpace(rest)) == ",  " + DropSpace(rest);
    } else {
      MarkIsText(s, i, f, s[i], rest);
    }
  }

  lemma {:induction false} ScanIsText(s: string, i: nat)
    requires i <= |s|
    ensures Scan(FlagsFrom(s, i), s[..i], Text(s, i)) == Text(s, 0)
    decreases i
  {
    if i > 0 {
      StepIsText(s, i - 1);
      assert s[..i][..i - 1] == s[..i - 1];
      ScanIsText(s, i - 1);
    }
  }

  // For every input: which commas are spread, which spaces go and where the two markers stand is
  // decided by nesting alone.
  lemma {:induction false} NestingDecides(orig: string)
    ensures
      var n := NameLength(orig, |orig|);
      Reformatted(orig) == Text(orig[..n], 0) + orig[n..]
  {
    var s := orig[..NameLength(orig, |orig|)];
    assert FlagsFrom(s, |s|) == Initial(s);
    assert s[..|s|] == s;
    ScanIsText(s, |s|);
  }

  // ------------------------------------------------------------------ template signatures

  function Closes(d: int, c: char): int { d + if c == '>' then 1 else if c == '<' then -1 else 0 }

  // Template brackets nested to any depth, no parentheses; d are open to the right.
  predicate Nested(s: string, d: nat) {
    if s == [] then d == 0
    else
      var c := s[|s| - 1];
      c != '(' && c != ')' && Closes(d, c) >= 0 && Nested(s[..|s| - 1], Closes(d, c))
  }

  // The text in front of `tail`: no space in front of '>', one space less behind a comma, and for
  // arguments two spaces more behind a comma that is in no template brackets.
  function Tidy(s: string, args: bool, d: int, tail: string): string {
    if s == [] then tail
    else
      var n := |s| - 1;
      var c := s[n];
      Tidy(s[..n], args, Closes(d, c),
           if Dropped(c, tail) then tail
           else if c == ',' then (if args && d == 0 then ",  " else ",") + DropSpace(tail)
           else [c] + tail)
  }

  // Inside an argument list, or inside the brackets of the name's own template arguments.
  function Inside(args: bool, d: nat): Flags {
    if args then Flags(d, 1, false, false) else Flags(1 + d, 0, false, false)
  }

  lemma StepInside(args: bool, d: nat, before: string, c: char, tail: string)
    requires c != '(' && c != ')' && Closes(d, c) >= 0 && d + 2 < WORD
    ensures Step(Inside(args, d), before, c, tail) ==
              (if Dropped(c, tail) then tail
               else if c == ',' then (if args && d == 0 then ",  " else ",") + DropSpace(tail)
               else [c] + tail, Inside(args, Closes(d, c)))
  {
    if Dropped(c, tail) { assert ['>'] + tail[1..] == tail; }
    if c == ',' { assert [','] + ("  " + DropSpace(tail)) == ",  " + DropSpace(tail); }
  }

  lemma {:induction false} ScanInside(args: bool, d: nat, before: string, s: string, tail: string)
    requires Nested(s, d) && d + |s| + 2 < WORD
    ensures Scan(Inside(args, d), before + s, tail) == Scan(Inside(args, 0), before, Tidy(s, args, d, tail))
    decreases |s|
  {
    if s == [] {
      assert before + s == before;
    } else {
      var n := |s| - 1;
      StepInside(args, d, before + s[..n], s[n], tail);
      ScanOne(Inside(args, d), before + s[..n], s[n], tail);
      assert before + s[..n] + [s[n]] == before + s;
      ScanInside(args, Closes(d, s[n]), before, s[..n], Step(Inside(args, d), before + s[..n], s[n], tail).0);
    }
  }

  // Right to left over `name<targs>(args)`: the marker goes in front of the first '<'.
  lemma ScanTemplate(left: string, name: string, targs: string, args: string, rest: string)
    requires name != [] && Word(name) && Nested(targs, 0) && Nested(args, 0) && |targs| + |args| + 2 < WORD
    requires rest == Tidy(targs, false, 0, ">(" + Tidy(args, true, 0, ")"))
    ensures Scan(Flags(0, 0, false, false), left + name + "<" + targs + ">(" + args + ")", "")
         == Scan(Flags(0, 0, true, false), left, name + ("  <" + rest))
  {
    var open := left + name + "<" + targs;
    var tail := Tidy(args, true, 0, ")");
    CloseArguments(open + ">(" + args);
    ScanInside(true, 0, open + ">(", args, ")");
    OpenAfterTemplate(open, tail);
    ScanInside(false, 0, left + name + "<", targs, ">(" + tail);
    EndAtTemplate(left + name, rest);
    ScanName(Flags(0, 0, true, false), left, name, "  <" + rest);
  }

  lemma OpenAfterTemplate(open: string, tail: string)
    ensures Scan(Flags(0, 1, false, false), open + ">(", tail) == Scan(Flags(1, 0, false, false), open, ">(" + tail)
  {
    assert open + ">(" == open + ">" + ['('] && open + ">" == open + ['>'];
    ScanOne(Flags(0, 1, false, false), open + ">", '(', tail);
    ScanOne(Flags(0, 0, false, false), open, '>', ['('] + tail);
    assert ['>'] + (['('] + tail) == ">(" + tail;
  }

  lemma EndAtTemplate(before: string, rest: string)
    requires before != [] && before[|before| - 1] != '>'
    ensures Scan(Flags(1, 0, false, false), before + "<", rest) == Scan(Flags(0, 0, true, false), before, "  <" + rest)
  {
    ScanOne(Flags(1, 0, false, false), before, '<', rest);
    assert "  " + ['<'] + rest == "  <" + rest;
  }

  // A signature `qualifier name<targs>(args) modifiers` whose template arguments and arguments
  // hold template brackets to any depth: the name stands between two spaces more on each side,
  // the arguments are spread out at their top level only, and everything within brackets is
  // tightened.
  lemma TemplateSignature(qualifier: string, c: char, name: string, targs: string, args: string, modifiers: string)
    requires qualifier != [] && Settled(qualifier) && (c == ' ' || c == ':')
    requires name != [] && Word(name) && Nested(targs, 0) && Nested(args, 0) && |targs| + |args| + 2 < WORD
    requires forall k :: 0 <= k < |modifiers| ==> Modifier(modifiers[k])
    ensures Reformatted(qualifier + [c] + name + "<" + targs + ">(" + args + ")" + modifiers)
         == qualifier + ([c] + Gap(c) + (name + ("  <" + Tidy(targs, false, 0, ">(" + Tidy(args, true, 0, ")"))))) + modifiers
  {
    var head := qualifier + [c] + name + "<" + targs + ">(" + args;
    var rest := Tidy(targs, false, 0, ">(" + Tidy(args, true, 0, ")"));
    Unmodified(head, modifiers);
    ScanTemplate(qualifier + [c], name, targs, args, rest);
    MarkStart(qualifier, c, name + ("  <" + rest));
  }

  // The same for a plain name.
  lemma NestedSignature(qualifier: string, c: char, name: string, args: string, modifiers: string)
    requires qualifier != [] && Settled(qualifier) && (c == ' ' || c == ':')
    requires name != [] && Word(name) && Nested(args, 0) && |args| + 2 < WORD
    requires forall k :: 0 <= k < |modifiers| ==> Modifier(modifiers[k])
    ensures Reformatted(qualifier + [c] + name + "(" + args + ")" + modifiers)
         == qualifier + ([c] + Gap(c) + (name + ("  (" + Tidy(args, true, 0, ")")))) + modifiers
  {
    var left, tail := qualifier + [c], Tidy(args, true, 0, ")");
    Unmodified(left + name + "(" + args, modifiers);
    CloseArguments(left + name + "(" + args);
    ScanInside(true, 0, left + name + "(", args, ")");
    MarkEnd(left + name, tail);
    ScanName(Flags(0, 0, true, false), left, name, "  (" + tail);
    MarkStart(qualifier, c, name + ("  (" + tail));
  }

  lemma Unmodified(head: string, modifiers: string)
    requires forall k :: 0 <= k < |modifiers| ==> Modifier(modifiers[k])
    ensures Reformatted(head + ")" + modifiers) == Scan(Flags(0, 0, false, false), head + ")", "") + modifiers
  {
    var orig := head + ")" + modifiers;
    ModifiersEndAt(orig, |orig|, |head|);
    assert orig[..|head| + 1] == head + ")" && orig[|head| + 1..] == modifiers;
  }
}
