/**
  The text form of an integer vector: `size[a, b, c]`.

  The element type is a signed integer type with range lo..hi.  Extraction from a stream
  is modelled on the unread text; a failed stream is one whose text is no longer read.
*/
module TextVector {
  import opened MachineWords
  import opened Wrappers

  // ------------------------------------------------------------------ numbers

  predicate IsDigit(c: char) { '0' <= c <= '9' }

  predicate IsSpace(c: char) { c == ' ' || '\t' <= c <= '\r' }

  function Digit(d: nat): (c: char)
    requires d < 10
    ensures IsDigit(c) && c as int - '0' as int == d
  {
    (d + '0' as int) as char
  }

  function Digits(n: nat): string {
    if n < 10 then [Digit(n)] else Digits(n / 10) + [Digit(n % 10)]
  }

  function Print(n: int): string { if n < 0 then "-" + Digits(-n) else Digits(n) }

  predicate AllDigits(s: string) { s == [] || (AllDigits(s[..|s| - 1]) && IsDigit(s[|s| - 1])) }

  function Value(s: string): int {
    if s == [] then 0 else 10 * Value(s[..|s| - 1]) + (s[|s| - 1] as int - '0' as int)
  }

  function SkipSpace(s: string): (r: string)
    ensures |r| <= |s|
    ensures r == [] || !IsSpace(r[0])
  {
    if s != [] && IsSpace(s[0]) then SkipSpace(s[1..]) else s
  }

  function TakeDigits(s: string): (r: string)
    ensures |r| <= |s|
  {
    if s != [] && IsDigit(s[0]) then [s[0]] + TakeDigits(s[1..]) else []
  }

  function Unsigned(s: string): string {
    if s != [] && (s[0] == '-' || s[0] == '+') then s[1..] else s
  }

  function Signed(s: string, n: int): int { if s != [] && s[0] == '-' then -n else n }

  datatype Extracted = Extracted(value: Option<int>, rest: string)

  // ss >> value: fails without digits, and when the number does not fit.
  function Extract(s: string, lo: int, hi: int): (e: Extracted)
    ensures e.value.Some? ==> |e.rest| < |s| && lo <= e.value.value <= hi
  {
    var t := SkipSpace(s);
    var ds := TakeDigits(Unsigned(t));
    var n := Signed(t, Value(ds));
    Extracted(if ds != [] && lo <= n <= hi then Some(n) else None, Unsigned(t)[|ds|..])
  }

  // ss >> ch, with the character thrown away.
  function SkipChar(s: string): (r: string)
    ensures |r| <= |s|
  {
    var t := SkipSpace(s);
    if t == [] then [] else t[1..]
  }

  // ------------------------------------------------------------------ vectors

  function Tail(v: seq<int>): string {
    if v == [] then "" else ", " + Print(v[0]) + Tail(v[1..])
  }

  function Elements(v: seq<int>): string {
    if v == [] then "" else Print(v[0]) + Tail(v[1..])
  }

  function Text(v: seq<int>): string { Digits(|v|) + "[" + Elements(v) + "]" }

  // The elements the extraction loop collects.
  function Items(s: string, lo: int, hi: int): seq<int>
    decreases |s|
  {
    var e := Extract(s, lo, hi);
    match e.value
    case None => []
    case Some(n) => [n] + Items(SkipChar(e.rest), lo, hi)
  }

  // What getline stores, and what it leaves unread.
  function Prefix(s: string): (p: string)
    ensures |p| <= |s| && s[..|p|] == p && '[' !in p
    ensures |p| == |s| || s[|p|] == '['
  {
    if s == [] || s[0] == '[' then [] else [s[0]] + Prefix(s[1..])
  }

  function AfterPrefix(s: string): string {
    if |Prefix(s)| == |s| then [] else s[|Prefix(s)| + 1..]
  }

  // lexical_cast<size_t>: a sign is allowed, and a minus sign wraps.
  function Size(p: string): Option<nat> {
    var ds := Unsigned(p);
    if ds == [] || !AllDigits(ds) || !(0 <= Value(ds) < WORD) then None
    else if p[0] == '-' && Value(ds) > 0 then Some(WORD - Value(ds))
    else Some(Value(ds))
  }

  datatype Outcome = NoData | Done | BadSize | TooLarge

  function Verdict(p: string, capacity: nat): Outcome {
    if p == [] then Done
    else if Size(p).None? then BadSize
    else if Size(p).value > capacity then TooLarge
    else Done
  }

  // ------------------------------------------------------------------ the code

  lemma Assoc(a: string, b: string, c: string)
    ensures a + b + c == a + (b + c)
  {}

  lemma {:induction false} TailSnoc(v: seq<int>, n: int)
    ensures Tail(v + [n]) == Tail(v) + ", " + Print(n)
  {
    if v == [] {
      assert (v + [n])[1..] == [];
    } else {
      assert (v + [n])[1..] == v[1..] + [n];
      TailSnoc(v[1..], n);
    }
  }

  lemma ElementsSnoc(v: seq<int>, n: int)
    ensures Elements(v + [n]) == (if v == [] then "" else Elements(v) + ", ") + Print(n)
  {
    if v == [] {
      assert (v + [n])[1..] == [];
    } else {
      assert (v + [n])[1..] == v[1..] + [n];
      TailSnoc(v[1..], n);
    }
  }

  lemma ElementsNext(head: string, v: seq<int>, i: nat)
    requires i < |v|
    ensures
      var before := head + Elements(v[..i]);
      head + Elements(v[..i + 1]) == (if i == 0 then before else before + ", ") + Print(v[i])
  {
    ElementsSnoc(v[..i], v[i]);
    assert v[..i + 1] == v[..i] + [v[i]];
    if i == 0 {
      assert Elements(v[..i]) == "" && head + "" == head;
    } else {
      Appended(head, Elements(v[..i]), ", ", Print(v[i]));
    }
  }

  lemma Appended(head: string, e: string, comma: string, t: string)
    ensures head + (e + comma + t) == head + e + comma + t
  {
    Assoc(head, e + comma, t);
    Assoc(head, e, comma);
  }

  method Serialize(data: Option<seq<int>>) returns (ok: bool, ss: string)
    ensures ok <==> data.Some?
    ensures ss == if ok then Text(data.value) else ""
  {
    if data.None? {
      return false, "";
    }
    var v := data.value;
    ss := Digits(|v|);
    ss := ss + "[";
    ghost var head := ss;
    for i := 0 to |v|
      invariant ss == head + Elements(v[..i])
    {
      ElementsNext(head, v, i);
      if i != 0 {
        ss := ss + ", ";
      }
      ss := ss + Print(v[i]);
    }
    assert v[..|v|] == v;
    ss := ss + "]";
    ok := true;
  }

  ghost predicate Collected(data: seq<int>, ss: string, text: string, lo: int, hi: int) {
    data + Items(ss, lo, hi) == Items(text, lo, hi)
  }

  // The extraction loop.
  method ReadItems(text: string, lo: int, hi: int) returns (data: seq<int>)
    ensures data == Items(text, lo, hi)
  {
    var ss := text;
    data := [];
    assert [] + Items(ss, lo, hi) == Items(ss, lo, hi);
    while true
      invariant Collected(data, ss, text, lo, hi)
      decreases |ss|
    {
      var value := Extract(ss, lo, hi);
      if value.value.None? {
        break;
      }
      ss := SkipChar(value.rest);
      data := data + [value.value.value];
    }
  }

  // `present` is whether the parameter has data to fill; `capacity` is the most reserve can give.
  method DeSerialize(present: bool, text: string, lo: int, hi: int, capacity: nat)
    returns (outcome: Outcome, data: seq<int>)
    ensures outcome == if present then Verdict(Prefix(text), capacity) else NoData
    ensures data == if outcome.Done? then Items(AfterPrefix(text), lo, hi) else []
  {
    if !present {
      return NoData, [];
    }
    var size, ss := Prefix(text), AfterPrefix(text);
    if |size| > 0 {
      match Size(size) {
        case None => return BadSize, [];
        case Some(n) => if n > capacity { return TooLarge, []; }
      }
    }
    outcome := Done;
    data := ReadItems(ss, lo, hi);
  }

  // ------------------------------------------------------------------ round trip

  lemma {:induction false} ValueOfDigits(n: nat)
    ensures Value(Digits(n)) == n && AllDigits(Digits(n)) && Digits(n) != []
  {
    if n >= 10 {
      ValueOfDigits(n / 10);
      assert Digits(n)[..|Digits(n)| - 1] == Digits(n / 10);
    } else {
      assert Digits(n)[..0] == [];
    }
  }

  // The only numeral of a number without leading zeros, which is "0" for 0, is the printed one.
  lemma {:induction false} NumeralIsPrinted(ds: string)
    requires ds != [] && AllDigits(ds) && (ds[0] == '0' ==> ds == "0")
    ensures Value(ds) >= 0 && Digits(Value(ds)) == ds && (Value(ds) == 0 ==> ds == "0")
    decreases |ds|
  {
    var init, last := ds[..|ds| - 1], ds[|ds| - 1];
    if init == [] {
      assert ds == [last];
    } else {
      NumeralIsPrinted(init);
      assert ds == init + [last];
    }
  }

  lemma {:induction false} NoLeadingZero(n: nat)
    ensures Digits(n)[0] == '0' ==> n == 0 && Digits(n) == "0"
  {
    if n >= 10 { NoLeadingZero(n / 10); }
  }

  lemma {:induction false} AllDigitsAt(s: string, k: nat)
    requires AllDigits(s) && k < |s|
    ensures IsDigit(s[k])
  {
    if k < |s| - 1 {
      AllDigitsAt(s[..|s| - 1], k);
    }
  }

  lemma {:induction false} TakeDigitsOf(ds: string, t: string)
    requires forall k :: 0 <= k < |ds| ==> IsDigit(ds[k])
    requires t == [] || !IsDigit(t[0])
    ensures TakeDigits(ds + t) == ds
  {
    if ds == [] {
      assert ds + t == t;
    } else {
      assert (ds + t)[1..] == ds[1..] + t;
      TakeDigitsOf(ds[1..], t);
    }
  }

  lemma TakeNumeral(ds: string, t: string)
    requires ds != [] && AllDigits(ds) && (t == [] || !IsDigit(t[0]))
    ensures TakeDigits(ds + t) == ds && IsDigit(ds[0])
  {
    forall k | 0 <= k < |ds|
      ensures IsDigit(ds[k])
    {
      AllDigitsAt(ds, k);
    }
    TakeDigitsOf(ds, t);
  }

  lemma ExtractDigits(n: nat, t: string, lo: int, hi: int)
    requires lo <= n <= hi && (t == [] || !IsDigit(t[0]))
    ensures Extract(Digits(n) + t, lo, hi) == Extracted(Some(n), t)
  {
    ValueOfDigits(n);
    TakeNumeral(Digits(n), t);
  }

  lemma ExtractNegative(n: nat, t: string, lo: int, hi: int)
    requires lo <= -(n as int) <= hi && (t == [] || !IsDigit(t[0]))
    ensures Extract("-" + Digits(n) + t, lo, hi) == Extracted(Some(-(n as int)), t)
  {
    ValueOfDigits(n);
    ExtractMinus(Digits(n), t, lo, hi);
  }

  lemma ExtractMinus(ds: string, t: string, lo: int, hi: int)
    requires ds != [] && AllDigits(ds) && lo <= -Value(ds) <= hi && (t == [] || !IsDigit(t[0]))
    ensures Extract("-" + ds + t, lo, hi) == Extracted(Some(-Value(ds)), t)
  {
    var s, rest := "-" + ds + t, ds + t;
    TakeNumeral(ds, t);
    Assoc("-", ds, t);
    assert s[0] == '-' && s[1..] == rest && SkipSpace(s) == s;
    assert Unsigned(s) == rest && rest[|ds|..] == t;
  }

  lemma ExtractPrinted(n: int, t: string, lo: int, hi: int)
    requires lo <= n <= hi && (t == [] || !IsDigit(t[0]))
    ensures Extract(Print(n) + t, lo, hi) == Extracted(Some(n), t)
  {
    if n < 0 {
      ExtractNegative(-n, t, lo, hi);
    } else {
      ExtractDigits(n, t, lo, hi);
    }
  }

  lemma ExtractSpaced(s: string, lo: int, hi: int)
    ensures Extract(" " + s, lo, hi) == Extract(s, lo, hi)
  {
    assert (" " + s)[1..] == s;
  }

  ghost predicate Reads(s: string, lo: int, hi: int, v: seq<int>) { Items(s, lo, hi) == v }

  // A printed number, the character after it skipped, then whatever the rest reads as.
  lemma ReadsNumber(n: int, c: char, rest: string, lo: int, hi: int, v: seq<int>)
    requires lo <= n <= hi && !IsDigit(c) && !IsSpace(c) && Reads(rest, lo, hi, v)
    ensures Reads(Print(n) + ([c] + rest), lo, hi, [n] + v)
  {
    var t := [c] + rest;
    ExtractPrinted(n, t, lo, hi);
    assert SkipSpace(t) == t && t[1..] == rest;
  }

  lemma OneElement(n: int)
    ensures Elements([n]) + "]" == Print(n) + ([']'] + "")
  {
    assert [n][1..] == [];
  }

  lemma MoreElements(v: seq<int>)
    requires |v| > 1
    ensures Elements(v) + "]" == Print(v[0]) + ([','] + (" " + (Elements(v[1..]) + "]")))
  {
    var p, q, t, e := Print(v[0]), Print(v[1]), Tail(v[1..][1..]), Elements(v[1..]);
    Assoc(", ", q, t);
    Assoc(p, ", " + e, "]");
    Assoc(", ", e, "]");
    Assoc([','], " ", e + "]");
    assert ", " == [','] + " ";
  }

  lemma ReadsLast(n: int, lo: int, hi: int)
    requires lo <= n <= hi
    ensures Reads(Elements([n]) + "]", lo, hi, [n])
  {
    OneElement(n);
    ReadsNumber(n, ']', "", lo, hi, []);
    assert [n] + [] == [n];
  }

  lemma ReadsMore(v: seq<int>, w: seq<int>, lo: int, hi: int)
    requires |v| > 1 && lo <= v[0] <= hi && w == v[1..]
    requires Reads(Elements(w) + "]", lo, hi, w)
    ensures Reads(Elements(v) + "]", lo, hi, [v[0]] + w)
  {
    var next := Elements(w) + "]";
    MoreElements(v);
    ReadsNumber(v[0], ',', " " + next, lo, hi, w);
  }

  lemma {:induction false} ReadsElements(v: seq<int>, lo: int, hi: int)
    requires v != [] && forall k :: 0 <= k < |v| ==> lo <= v[k] <= hi
    ensures Reads(Elements(v) + "]", lo, hi, v)
    decreases |v|
  {
    if |v| == 1 {
      assert v == [v[0]];
      ReadsLast(v[0], lo, hi);
    } else {
      assert v == [v[0]] + v[1..];
      ReadsElements(v[1..], lo, hi);
      ReadsMore(v, v[1..], lo, hi);
    }
  }

  lemma {:induction false} PrefixOf(p: string, t: string)
    requires '[' !in p
    ensures Prefix(p + "[" + t) == p
  {
    if p != [] {
      assert (p + "[" + t)[1..] == p[1..] + "[" + t;
      PrefixOf(p[1..], t);
    }
  }

  // For any prefix the elements are the vector: the prefix only decides the verdict.
  lemma ParseAnyPrefix(p: string, v: seq<int>, lo: int, hi: int)
    requires '[' !in p && lo <= 0 <= hi
    requires forall k :: 0 <= k < |v| ==> lo <= v[k] <= hi
    ensures
      var text := p + "[" + Elements(v) + "]";
      Prefix(text) == p && Items(AfterPrefix(text), lo, hi) == v
  {
    var body := Elements(v) + "]";
    Assoc(p + "[", Elements(v), "]");
    BodyOf(p, body);
    if v != [] { ReadsElements(v, lo, hi); }
    assert Reads(body, lo, hi, v);
  }

  lemma BodyOf(p: string, body: string)
    requires '[' !in p
    ensures Prefix(p + "[" + body) == p && AfterPrefix(p + "[" + body) == body
  {
    PrefixOf(p, body);
    assert (p + "[" + body)[|p| + 1..] == body;
  }

  lemma SizeOfDigits(n: nat)
    requires n < WORD
    ensures '[' !in Digits(n) && Size(Digits(n)) == Some(n)
  {
    ValueOfDigits(n);
    forall k | 0 <= k < |Digits(n)|
      ensures IsDigit(Digits(n)[k])
    {
      AllDigitsAt(Digits(n), k);
    }
    assert Unsigned(Digits(n)) == Digits(n);
  }

  // Printing then parsing gives the vector back, provided reserve can give its length.
  lemma RoundTrip(v: seq<int>, lo: int, hi: int, capacity: nat)
    requires lo <= 0 <= hi && |v| < WORD
    requires forall k :: 0 <= k < |v| ==> lo <= v[k] <= hi
    ensures Items(AfterPrefix(Text(v)), lo, hi) == v
    ensures Verdict(Prefix(Text(v)), capacity) == if |v| <= capacity then Done else TooLarge
  {
    SizeOfDigits(|v|);
    ParseAnyPrefix(Digits(|v|), v, lo, hi);
  }

  // ------------------------------------------------------------------ other texts

  predicate Blank(s: string) { forall k :: 0 <= k < |s| ==> IsSpace(s[k]) }

  lemma {:induction false} SkipBlank(gap: string, s: string)
    requires Blank(gap)
    ensures SkipSpace(gap + s) == SkipSpace(s)
  {
    if gap == [] {
      assert gap + s == s;
    } else {
      assert (gap + s)[1..] == gap[1..] + s;
      SkipBlank(gap[1..], s);
    }
  }

  // One element with white space on both sides, and the character that follows it.
  datatype Entry = Entry(before: string, value: int, after: string, mark: char) {
    predicate Fits(lo: int, hi: int) {
      Blank(before) && Blank(after) && lo <= value <= hi && !IsDigit(mark) && !IsSpace(mark)
    }

    function Spelled(): string { before + (Print(value) + (after + [mark])) }
  }

  function Spelled(entries: seq<Entry>): string {
    if entries == [] then "" else entries[0].Spelled() + Spelled(entries[1..])
  }

  function Values(entries: seq<Entry>): seq<int> {
    if entries == [] then [] else [entries[0].value] + Values(entries[1..])
  }

  lemma SkipMark(after: string, mark: char, rest: string)
    requires Blank(after) && !IsSpace(mark)
    ensures SkipChar(after + [mark] + rest) == rest
  {
    assert after + [mark] + rest == after + ([mark] + rest);
    SkipBlank(after, [mark] + rest);
    assert ([mark] + rest)[1..] == rest;
  }

  lemma ReadsEntry(e: Entry, rest: string, lo: int, hi: int, v: seq<int>)
    requires e.Fits(lo, hi) && Reads(rest, lo, hi, v)
    ensures Reads(e.Spelled() + rest, lo, hi, [e.value] + v)
  {
    var t := e.after + [e.mark] + rest;
    assert e.Spelled() + rest == e.before + (Print(e.value) + t);
    SkipBlank(e.before, Print(e.value) + t);
    ExtractPrinted(e.value, t, lo, hi);
    SkipMark(e.after, e.mark, rest);
  }

  // Elements with any white space around them and any separators are read back, up to the first
  // text that is no number.
  lemma {:induction false} ReadsAnySpacing(entries: seq<Entry>, rest: string, lo: int, hi: int)
    requires (forall e :: e in entries ==> e.Fits(lo, hi)) && Extract(rest, lo, hi).value.None?
    ensures Reads(Spelled(entries) + rest, lo, hi, Values(entries))
  {
    if entries == [] {
      assert Spelled(entries) + rest == rest;
    } else {
      var e, more := entries[0], Spelled(entries[1..]);
      assert forall f :: f in entries[1..] ==> f in entries;
      ReadsAnySpacing(entries[1..], rest, lo, hi);
      ReadsEntry(e, more + rest, lo, hi, Values(entries[1..]));
      Assoc(e.Spelled(), more, rest);
    }
  }

  // A size may be signed; a minus sign wraps it.
  lemma SizeOfSigned(n: nat, ds: string)
    requires n < WORD && ds == Digits(n)
    ensures Size("+" + ds) == Some(n) && Size("-" + ds) == Some((WORD - n) % WORD)
  {
    ValueOfDigits(n);
    SizeBehindSign('+', ds);
    SizeBehindSign('-', ds);
  }

  lemma SizeBehindSign(sign: char, ds: string)
    requires (sign == '+' || sign == '-') && ds != [] && AllDigits(ds) && 0 <= Value(ds) < WORD
    ensures Size([sign] + ds) == Some(if sign == '-' && Value(ds) > 0 then WORD - Value(ds) else Value(ds))
  {
    assert ([sign] + ds)[1..] == ds;
  }
}
