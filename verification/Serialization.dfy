/** Printing and parsing of schedulers: src/agent/Schedulers.cc and GlobalSchedulers.cc.
    Strings are C strings without their terminator. */
module Serialization {

  datatype Result<+T> = Success(value: T) | Failure(reason: string)

  datatype Scheduler =
    | RR
    | Rand
    | Min(tag: int)
    | Max(tag: int)
    | Priority(values: seq<int>)

  /** What the constructors of the source accept. */
  predicate Constructible(s: Scheduler) {
    match s
    case Min(tag) => tag >= 0
    case Max(tag) => tag >= 0
    case Priority(values) => values != []
    case _ => true
  }

  // ---------------------------------------------------------------- "%d"

  function Digit(d: nat): char
    requires d < 10
  {
    (48 + d) as char
  }

  predicate IsDigit(c: char) {
    48 <= c as int <= 57
  }

  function Digits(n: nat): (s: string)
    ensures s != [] && forall k :: 0 <= k < |s| ==> IsDigit(s[k])
  {
    if n < 10 then [Digit(n)] else Digits(n / 10) + [Digit(n % 10)]
  }

  function PrintInt(i: int): string {
    if i < 0 then "-" + Digits(-i) else Digits(i)
  }

  function DigitSpan(s: string): (n: nat)
    ensures n <= |s|
  {
    if s != [] && IsDigit(s[0]) then 1 + DigitSpan(s[1..]) else 0
  }

  function ValueOf(s: string): nat
    requires forall k :: 0 <= k < |s| ==> IsDigit(s[k])
  {
    if s == [] then 0
    else
      assert IsDigit(s[|s| - 1]);
      var last: nat := s[|s| - 1] as int - 48;
      10 * ValueOf(s[..|s| - 1]) + last
  }

  predicate IsSpace(c: char) {
    c == ' ' || 9 <= c as int <= 13
  }

  function SkipSpace(s: string): string {
    if s != [] && IsSpace(s[0]) then SkipSpace(s[1..]) else s
  }

  function ScanDigits(u: string): Result<(int, string)> {
    var n := DigitSpan(u);
    SpanIsDigits(u);
    if n == 0 then Failure("no number")
    else
      var v: int := ValueOf(u[..n]);
      Success((v, u[n..]))
  }

  /** sscanf(s, "%d"): white space, an optional sign, at least one digit. */
  function ScanInt(s: string): Result<(int, string)> {
    var t := SkipSpace(s);
    var signed := t != [] && (t[0] == '-' || t[0] == '+');
    match ScanDigits(if signed then t[1..] else t)
    case Failure(why) => Failure(why)
    case Success((v, rest)) => Success((if signed && t[0] == '-' then -v else v, rest))
  }

  lemma {:induction false} SpanIsDigits(s: string)
    ensures forall k :: 0 <= k < DigitSpan(s) ==> IsDigit(s[k])
  {
    if s != [] && IsDigit(s[0]) { SpanIsDigits(s[1..]); }
  }

  lemma {:induction false} SpanOf(ds: string, rest: string)
    requires forall k :: 0 <= k < |ds| ==> IsDigit(ds[k])
    requires rest == [] || !IsDigit(rest[0])
    ensures DigitSpan(ds + rest) == |ds|
  {
    if ds == [] {
      assert ds + rest == rest;
    } else {
      assert (ds + rest)[1..] == ds[1..] + rest;
      SpanOf(ds[1..], rest);
    }
  }

  lemma {:induction false} ValueOfDigits(n: nat)
    ensures ValueOf(Digits(n)) == n
  {
    if n >= 10 {
      ValueOfDigits(n / 10);
      var ds := Digits(n);
      assert ds[..|ds| - 1] == Digits(n / 10);
    } else {
      assert Digits(n)[..0] == [];
    }
  }

  lemma {:induction false} DigitsScanned(u: string, ds: string, rest: string)
    requires ds != [] && (forall k :: 0 <= k < |ds| ==> IsDigit(ds[k])) && (rest == [] || !IsDigit(rest[0]))
    requires u == ds + rest
    ensures ScanDigits(u) == Success((ValueOf(ds), rest))
  {
    SpanOf(ds, rest);
    assert u[..|ds|] == ds && u[|ds|..] == rest;
  }

  lemma ScanSigned(t: string, u: string, n: int, rest: string, negative: bool)
    requires u != [] && IsDigit(u[0]) && ScanDigits(u) == Success((n, rest))
    requires t == if negative then ['-'] + u else u
    ensures ScanInt(t) == Success((if negative then -n else n, rest))
  {
    assert negative ==> t[1..] == u;
  }

  lemma ScanPrinted(i: int, rest: string)
    requires rest == [] || !IsDigit(rest[0])
    ensures ScanInt(PrintInt(i) + rest) == Success((i, rest))
  {
    var n: nat := if i < 0 then -i else i;
    var ds, t := Digits(n), PrintInt(i) + rest;
    ValueOfDigits(n);
    if i < 0 { Assoc(['-'], ds, rest, t); }
    DigitsScanned(ds + rest, ds, rest);
    ScanSigned(t, ds + rest, n, rest, i < 0);
  }

  lemma Assoc(a: string, b: string, c: string, s: string)
    requires s == (a + b) + c
    ensures s == a + (b + c)
  {
  }

  // ---------------------------------------------------------------- separators

  function IndexOf(s: string, c: char): (n: nat)
    ensures n <= |s| && (n < |s| ==> s[n] == c) && forall k :: 0 <= k < n ==> s[k] != c
  {
    if s == [] || s[0] == c then 0 else 1 + IndexOf(s[1..], c)
  }

  predicate Free(s: string, c: char) {
    forall k :: 0 <= k < |s| ==> s[k] != c
  }

  lemma {:induction false} IndexAfter(s: string, c: char, rest: string)
    requires Free(s, c)
    ensures IndexOf(s + [c] + rest, c) == |s| && IndexOf(s, c) == |s|
  {
    var t := s + [c] + rest;
    assert t[|s|] == c;
    assert forall k :: 0 <= k < |s| ==> t[k] == s[k];
  }

  /** strncmp(s, name, n) == 0, where n is at most the length of s. */
  predicate SamePrefix(s: string, name: string, n: nat)
    requires n <= |s|
  {
    n <= |name| && s[..n] == name[..n]
  }

  const RAND_NAME := "RandScheduler"
  const MIN_NAME := "MinScheduler"
  const MAX_NAME := "MaxScheduler"
  const PRIORITY_NAME := "PriorityScheduler"
  const RR_NAME := "RRScheduler"

  // ---------------------------------------------------------------- one scheduler

  function PrintValues(values: seq<int>): string {
    if values == [] then [] else [','] + PrintInt(values[0]) + PrintValues(values[1..])
  }

  function Print(s: Scheduler): string {
    match s
    case RR => RR_NAME
    case Rand => RAND_NAME
    case Min(tag) => MIN_NAME + ([','] + PrintInt(tag))
    case Max(tag) => MAX_NAME + ([','] + PrintInt(tag))
    case Priority(values) => PRIORITY_NAME + ([','] + PrintInt(|values|) + PrintValues(values))
  }

  /** The bytes that a scheduler's serialize allocates for its string and the terminator. */
  function BufferSize(s: Scheduler): nat {
    match s
    case RR => |RR_NAME| + 1
    case Rand => |RAND_NAME| + 1
    case Min(_) => |MIN_NAME| + 20
    case Max(_) => |MAX_NAME| + 20
    case Priority(values) => |PRIORITY_NAME| + 8 * |values|
  }

  predicate Fits(s: Scheduler) {
    |Print(s)| < BufferSize(s)
  }

  /** PriorityScheduler::serialize prints with sprintf, which knows no limit: it fails here as
      soon as it has written behind its buffer. */
  method PrintPriority(values: seq<int>) returns (r: Result<string>)
    ensures r.Success? <==> |Print(Priority(values))| < |PRIORITY_NAME| + 8 * |values|
    ensures r.Success? ==> r.value == Print(Priority(values))
  {
    var size := |PRIORITY_NAME| + 8 * |values|;
    var res := PRIORITY_NAME + ([','] + PrintInt(|values|));
    assert res + PrintValues(values) == Print(Priority(values));
    if |res| >= size { return Failure("writes past the buffer"); }
    for valIter := 0 to |values|
      invariant |res| < size
      invariant res + PrintValues(values[valIter..]) == Print(Priority(values))
    {
      assert values[valIter..][1..] == values[valIter + 1..];
      ghost var before := res;
      res := res + ([','] + PrintInt(values[valIter]));
      assert before + ([','] + PrintInt(values[valIter]) + PrintValues(values[valIter + 1..]))
          == res + PrintValues(values[valIter + 1..]);
      if |res| >= size { return Failure("writes past the buffer"); }
    }
    r := Success(res);
  }

  /** Scheduler::serialize */
  method PrintScheduler(s: Scheduler) returns (r: Result<string>)
    ensures r.Success? <==> Fits(s)
    ensures r.Success? ==> r.value == Print(s)
  {
    match s
    case RR =>
      r := Success(RR_NAME);
    case Rand =>
      r := Success(RAND_NAME);
    case Min(tag) =>
      var res := MIN_NAME + ([','] + PrintInt(tag));
      r := if |res| < |MIN_NAME| + 20 then Success(res) else Failure("writes past the buffer");
    case Max(tag) =>
      var res := MAX_NAME + ([','] + PrintInt(tag));
      r := if |res| < |MAX_NAME| + 20 then Success(res) else Failure("writes past the buffer");
    case Priority(values) =>
      r := PrintPriority(values);
  }

  function Pow10(k: nat): (p: nat)
    ensures p >= 1
  {
    if k == 0 then 1 else 10 * Pow10(k - 1)
  }

  lemma {:induction false} DigitCount(n: nat, k: nat)
    requires k > 0
    ensures |Digits(n)| <= k <==> n < Pow10(k)
    decreases k
  {
    if n >= 10 && k > 1 { DigitCount(n / 10, k - 1); }
    if n >= 10 && k == 1 { assert |Digits(n / 10)| >= 1; }
    assert Pow10(k) == 10 * Pow10(k - 1);
  }

  /** A list of one value fits its buffer iff the value has at most four characters. */
  lemma OneValueFits(v: int)
    ensures Fits(Priority([v])) <==> -999 <= v <= 9999
  {
    assert PrintValues([v]) == [','] + PrintInt(v) + [] by { assert [v][1..] == []; }
    assert |PrintInt(1)| == 1;
    assert Pow10(3) == 1000 && Pow10(4) == 10000 by {
      assert Pow10(2) == 10 * Pow10(1) && Pow10(1) == 10 * Pow10(0);
    }
    if v < 0 { DigitCount(-v, 3); } else { DigitCount(v, 4); }
  }

  /** Tags are of type int, which always fits the 20 characters of Min and Max. */
  lemma TagsFit(tag: nat)
    requires tag < 0x8000_0000
    ensures Fits(Min(tag)) && Fits(Max(tag))
  {
    assert Pow10(10) == 10000000000 by {
      assert Pow10(1) == 10 && Pow10(2) == 100 && Pow10(3) == 1000 && Pow10(4) == 10000;
      assert Pow10(5) == 100000 && Pow10(6) == 1000000 && Pow10(7) == 10000000;
      assert Pow10(8) == 100000000 && Pow10(9) == 1000000000;
    }
    DigitCount(tag, 10);
  }

  /** MinScheduler::deserialize and its Max twin: sscanf "%d%c" has to find the number only. */
  function ParseTag(rest: string): Result<int> {
    if rest == [] then Failure("reads past the end")
    else
      match ScanInt(rest[1..])
      case Failure(why) => Failure("invalid parameters")
      case Success((tag, more)) => if more != [] then Failure("invalid parameters") else Success(tag)
  }

  /** The value loop of PriorityScheduler::deserialize. */
  function ParseValues(s: string, numValues: nat): Result<seq<int>>
    requires numValues > 0
  {
    match ScanInt(s)
    case Failure(why) => Failure("error reading value")
    case Success((value, _)) =>
      if numValues == 1 then Success([value])
      else if IndexOf(s, ',') == |s| then Failure("reads through NULL")
      else
        match ParseValues(s[IndexOf(s, ',') + 1..], numValues - 1)
        case Failure(why) => Failure(why)
        case Success(more) => Success([value] + more)
  }

  function ParsePriority(rest: string): Result<Scheduler> {
    if rest == [] then Failure("reads past the end")
    else
      var s := rest[1..];
      match ScanInt(s)
      case Failure(why) => Failure("error reading numValues")
      case Success((numValues, _)) =>
        if numValues <= 0 then Failure("invalid numValues")
        else if IndexOf(s, ',') == |s| then Failure("missing priority values")
        else
          match ParseValues(s[IndexOf(s, ',') + 1..], numValues)
          case Failure(why) => Failure(why)
          case Success(values) => Success(Priority(values))
  }

  /** Scheduler::deserialize: the name is looked up by comparing prefixes. */
  function Parse(s: string): Result<Scheduler> {
    var n := IndexOf(s, ',');
    if SamePrefix(s, RAND_NAME, n) then
      if s[n..] == [] then Success(Rand) else Failure("assertion")
    else if SamePrefix(s, MIN_NAME, n) then
      match ParseTag(s[n..])
      case Failure(why) => Failure(why)
      case Success(tag) => if tag >= 0 then Success(Min(tag)) else Failure("assertion")
    else if SamePrefix(s, MAX_NAME, n) then
      match ParseTag(s[n..])
      case Failure(why) => Failure(why)
      case Success(tag) => if tag >= 0 then Success(Max(tag)) else Failure("assertion")
    else if SamePrefix(s, PRIORITY_NAME, n) then ParsePriority(s[n..])
    else if SamePrefix(s, RR_NAME, n) then
      if s[n..] == [] then Success(RR) else Failure("assertion")
    else Success(Rand)
  }

  lemma DigitsFree(i: int, c: char)
    requires !IsDigit(c) && c != '-'
    ensures Free(PrintInt(i), c)
  {
  }

  /** A printed number is scanned up to the comma behind it. */
  lemma ScanToComma(i: int, rest: string)
    ensures var t := PrintInt(i) + [','] + rest;
      && ScanInt(t) == Success((i, [','] + rest))
      && IndexOf(t, ',') == |PrintInt(i)| < |t| && t[|PrintInt(i)| + 1..] == rest
  {
    var here, t := PrintInt(i), PrintInt(i) + [','] + rest;
    assert t == here + ([','] + rest);
    ScanPrinted(i, [','] + rest);
    DigitsFree(i, ',');
    IndexAfter(here, ',', rest);
  }

  lemma ParseValuesStep(s: string, numValues: nat, i: int, k: nat, more: string, values: seq<int>)
    requires numValues > 1 && ScanInt(s) == Success((i, more))
    requires IndexOf(s, ',') == k < |s| && ParseValues(s[k + 1..], numValues - 1) == Success(values)
    ensures ParseValues(s, numValues) == Success([i] + values)
  {
  }

  lemma {:induction false} ParseLastValue(s: string, i: int, more: string)
    requires ScanInt(s) == Success((i, more))
    ensures ParseValues(s, 1) == Success([i])
  {
  }

  lemma {:induction false} ValuesShape(values: seq<int>)
    requires values != []
    ensures PrintValues(values) == [','] + PrintValues(values)[1..]
    ensures PrintValues(values)[1..] == PrintInt(values[0]) + PrintValues(values[1..])
  {
  }

  lemma OneMoreValue(s: string, i: int, rest: string, numValues: nat, values: seq<int>)
    requires numValues > 1 && s == PrintInt(i) + [','] + rest && ParseValues(rest, numValues - 1) == Success(values)
    ensures ParseValues(s, numValues) == Success([i] + values)
  {
    ScanToComma(i, rest);
    ParseValuesStep(s, numValues, i, |PrintInt(i)|, [','] + rest, values);
  }

  lemma {:induction false} LastValue(s: string, i: int)
    requires s == PrintInt(i)
    ensures ParseValues(s, 1) == Success([i])
  {
    assert s == PrintInt(i) + [];
    ScanPrinted(i, []);
    ParseLastValue(s, i, []);
  }

  lemma {:induction false} ParsePrintedValues(values: seq<int>, s: string)
    requires values != [] && s == PrintValues(values)[1..]
    ensures ParseValues(s, |values|) == Success(values)
  {
    var i, others := values[0], values[1..];
    ValuesShape(values);
    if others == [] {
      assert s == PrintInt(i) by { assert PrintInt(i) + [] == PrintInt(i); }
      LastValue(s, i);
      assert values == [i];
    } else {
      var rest := PrintValues(others)[1..];
      ParsePrintedValues(others, rest);
      ValuesShape(others);
      CommaBetween(PrintInt(i), PrintValues(others), rest, s);
      OneMoreValue(s, i, rest, |values|, others);
      assert values == [i] + others;
    }
  }

  lemma CommaBetween(a: string, b: string, rest: string, s: string)
    requires s == a + b && b == [','] + rest
    ensures s == a + [','] + rest
  {
  }

  /** Any scheduler is read back from what was printed for it. */
  lemma ParsePrinted(s: Scheduler)
    requires Constructible(s)
    ensures Parse(Print(s)) == Success(s)
  {
    match s
    case RR =>
      NameFound(RR_NAME, [], Print(s));
    case Rand =>
      NameFound(RAND_NAME, [], Print(s));
    case Min(tag) =>
      ParsePrintedMin(tag, [','] + PrintInt(tag), Print(s));
    case Max(tag) =>
      ParsePrintedMax(tag, [','] + PrintInt(tag), Print(s));
    case Priority(values) =>
      ParsePrintedList(values, PrintInt(|values|), PrintValues(values), Print(s));
  }

  lemma {:induction false} ParsePrintedList(values: seq<int>, count: string, vals: string, s: string)
    requires values != [] && count == PrintInt(|values|) && vals == PrintValues(values)
    requires s == PRIORITY_NAME + ([','] + count + vals)
    ensures Parse(s) == Success(Priority(values))
  {
    var rest := [','] + count + vals;
    NameFound(PRIORITY_NAME, rest, s);
    ParsePrintedPriority(values, count, vals, rest);
  }

  lemma ParsePrintedMin(tag: nat, rest: string, s: string)
    requires rest == [','] + PrintInt(tag) && s == MIN_NAME + rest
    ensures Parse(s) == Success(Min(tag))
  {
    NameFound(MIN_NAME, rest, s);
    ParsePrintedTag(tag, rest);
  }

  lemma ParsePrintedMax(tag: nat, rest: string, s: string)
    requires rest == [','] + PrintInt(tag) && s == MAX_NAME + rest
    ensures Parse(s) == Success(Max(tag))
  {
    NameFound(MAX_NAME, rest, s);
    ParsePrintedTag(tag, rest);
  }

  lemma ParsePrintedTag(tag: int, rest: string)
    requires rest == [','] + PrintInt(tag)
    ensures ParseTag(rest) == Success(tag)
  {
    assert rest[1..] == PrintInt(tag) == PrintInt(tag) + [];
    ScanPrinted(tag, []);
  }

  lemma {:induction false} ParsePriorityStep(s: string, n: nat, k: nat, more: string, values: seq<int>)
    requires s != [] && n > 0 && ScanInt(s[1..]) == Success((n, more))
    requires IndexOf(s[1..], ',') == k < |s[1..]| && ParseValues(s[1..][k + 1..], n) == Success(values)
    ensures ParsePriority(s) == Success(Priority(values))
  {
  }

  lemma {:induction false} CountAndValues(s: string, n: nat, rest: string, values: seq<int>)
    requires n > 0 && s == [','] + (PrintInt(n) + [','] + rest) && ParseValues(rest, n) == Success(values)
    ensures ParsePriority(s) == Success(Priority(values))
  {
    ScanToComma(n, rest);
    assert s[1..] == PrintInt(n) + [','] + rest;
    ParsePriorityStep(s, n, |PrintInt(n)|, [','] + rest, values);
  }

  lemma {:induction false} ParsePrintedPriority(values: seq<int>, count: string, vals: string, s: string)
    requires values != [] && count == PrintInt(|values|) && vals == PrintValues(values) && s == [','] + count + vals
    ensures ParsePriority(s) == Success(Priority(values))
  {
    ValuesShape(values);
    ParsePrintedValues(values, vals[1..]);
    CommaTwice(count, vals, vals[1..], s);
    CountAndValues(s, |values|, vals[1..], values);
  }

  lemma CommaTwice(count: string, vals: string, rest: string, s: string)
    requires vals == [','] + rest && s == [','] + count + vals
    ensures s == [','] + (count + [','] + rest)
  {
  }

  predicate IsName(name: string) {
    name == RAND_NAME || name == MIN_NAME || name == MAX_NAME || name == PRIORITY_NAME || name == RR_NAME
  }

  /** The first two letters tell the names apart. */
  lemma NamesDiffer(name: string, other: string)
    requires IsName(name) && IsName(other) && name != other
    ensures |name| > 2 && |other| > 2 && (name[0] != other[0] || name[1] != other[1])
  {
  }

  lemma {:induction false} NameFound(name: string, rest: string, s: string)
    requires IsName(name) && s == name + rest && (rest == [] || rest[0] == ',')
    ensures IndexOf(s, ',') == |name| && s[|name|..] == rest
    ensures forall other :: IsName(other) ==> (SamePrefix(s, other, |name|) <==> other == name)
  {
    NameHasNoComma(name);
    PrefixIndex(name, rest, s);
    forall other | IsName(other) ensures SamePrefix(s, other, |name|) <==> other == name {
      NamesNotPrefixes(name, other, s);
    }
  }

  lemma NameHasNoComma(name: string)
    requires IsName(name)
    ensures Free(name, ',')
  {
  }

  lemma {:induction false} PrefixIndex(name: string, rest: string, s: string)
    requires Free(name, ',') && s == name + rest && (rest == [] || rest[0] == ',')
    ensures IndexOf(s, ',') == |name| && s[|name|..] == rest && s[..|name|] == name
  {
    assert forall k :: 0 <= k < |name| ==> s[k] == name[k];
    assert rest != [] ==> s[|name|] == ',';
  }

  lemma NamesNotPrefixes(name: string, other: string, s: string)
    requires IsName(name) && IsName(other) && |name| <= |s| && s[..|name|] == name
    ensures SamePrefix(s, other, |name|) <==> other == name
  {
    if other == name {
      assert name[..|name|] == name;
    } else {
      NamesDiffer(name, other);
      DifferentStart(name, other);
    }
  }

  lemma DifferentStart(name: string, other: string)
    requires |name| > 2 && |other| > 2 && (name[0] != other[0] || name[1] != other[1])
    ensures |name| <= |other| ==> other[..|name|] != name
  {
    if |name| <= |other| {
      assert other[..|name|][0] == other[0] && other[..|name|][1] == other[1];
    }
  }

  // ---------------------------------------------------------------- a list of schedulers

  datatype GlobalScheduler = StdGS(schedulers: seq<Scheduler>) | PriorityGS(schedulers: seq<Scheduler>)

  const STD_NAME := "StdGS"
  const PRIORITY_GS_NAME := "PriorityGS"

  function NameOf(gs: GlobalScheduler): string {
    if gs.StdGS? then STD_NAME else PRIORITY_GS_NAME
  }

  /** Every token behind a ':'. */
  function Tail(tokens: seq<string>): string {
    if tokens == [] then [] else Tail(tokens[..|tokens| - 1]) + ([':'] + tokens[|tokens| - 1])
  }

  function Printed(schedulers: seq<Scheduler>): (tokens: seq<string>)
    ensures |tokens| == |schedulers| && forall k :: 0 <= k < |tokens| ==> tokens[k] == Print(schedulers[k])
  {
    seq(|schedulers|, k requires 0 <= k < |schedulers| => Print(schedulers[k]))
  }

  /** The string that the receivers have to see. */
  function Full(gs: GlobalScheduler): string {
    NameOf(gs) + Tail(Printed(gs.schedulers))
  }

  ghost predicate AllFit(schedulers: seq<Scheduler>) {
    Every(Fits, schedulers, |schedulers|)
  }

  ghost predicate Every<T>(p: T -> bool, xs: seq<T>, n: nat)
    requires n <= |xs|
  {
    forall k :: 0 <= k < n ==> p(xs[k])
  }

  lemma OneMore<T>(p: T -> bool, xs: seq<T>, i: nat)
    requires i < |xs| && Every(p, xs, i)
    ensures p(xs[i]) ==> Every(p, xs, i + 1)
    ensures !p(xs[i]) ==> !Every(p, xs, |xs|)
  {
  }

  function Clip(s: string, n: nat): string {
    if |s| <= n then s else s[..n]
  }

  /** StdGS::serialize and PriorityGS::serialize. They differ in the size given to snprintf
      after the buffer has grown; the other snprintf always counts from 128, in size_t. */
  method Serialize(gs: GlobalScheduler) returns (r: Result<string>)
    ensures r.Success? <==> AllFit(gs.schedulers)
    ensures r.Success? && gs.StdGS? ==> r.value == Clip(Full(gs), 127)
    ensures r.Success? && gs.PriorityGS? && |gs.schedulers| == 1 ==> r.value == Clip(Full(gs), 255)
    ensures r.Success? && |Full(gs)| < 128 ==> r.value == Full(gs)
  {
    var res := NameOf(gs);
    var length: nat, maxLength: nat := |res|, 128;
    ghost var full, tokens := res, Printed(gs.schedulers);
    for i := 0 to |gs.schedulers|
      invariant Every(Fits, gs.schedulers, i)
      invariant full == NameOf(gs) + Tail(tokens[..i]) && Holds(gs.StdGS?, i, res, length, maxLength, full)
    {
      var tmp := PrintNext(gs.schedulers, i);
      if tmp.Failure? { return tmp; }
      ghost var next := AfterNext(NameOf(gs), tokens, i, full, tmp.value);
      res, length, maxLength := Put(gs.StdGS?, i, res, length, maxLength, tmp.value, full, next);
      full := next;
    }
    assert tokens[..|tokens|] == tokens;
    r := Success(res);
  }

  method PrintNext(schedulers: seq<Scheduler>, i: nat) returns (tmp: Result<string>)
    requires i < |schedulers| && Every(Fits, schedulers, i)
    ensures tmp.Success? ==> tmp.value == Printed(schedulers)[i] && Every(Fits, schedulers, i + 1)
    ensures tmp.Failure? ==> !AllFit(schedulers)
  {
    tmp := PrintScheduler(schedulers[i]);
    OneMore(Fits, schedulers, i);
  }

  /** What an unlimited buffer holds after one more scheduler. */
  ghost function AfterNext(head: string, tokens: seq<string>, i: nat, full: string, tmp: string): (next: string)
    requires i < |tokens| && full == head + Tail(tokens[..i]) && tmp == tokens[i]
    ensures next == full + ([':'] + tmp) == head + Tail(tokens[..i + 1])
  {
    TailNext(head, tokens, i);
    full + ([':'] + tmp)
  }

  /** The buffer after i schedulers. */
  ghost predicate Holds(std: bool, i: nat, res: string, length: nat, maxLength: nat, full: string) {
    && length == |full| && maxLength >= 128 && (i == 0 ==> length < 128)
    && (length < 128 ==> maxLength == 128 && res == full)
    && (std ==> res == Clip(full, 127))
    && (!std && i == 1 ==> res == Clip(full, 255))
  }

  /** Appends ":" and one printed scheduler; `full` is what an unlimited buffer would hold.
      What is written behind the terminator of a clipped string is never seen. */
  method Put(std: bool, ghost i: nat, res: string, length: nat, maxLength: nat, tmp: string, ghost full: string,
             ghost next: string)
    returns (res': string, length': nat, maxLength': nat)
    requires Holds(std, i, res, length, maxLength, full) && next == full + ([':'] + tmp)
    ensures Holds(std, i + 1, res', length', maxLength', next)
  {
    var tmpLength := |tmp| + 1;
    res', maxLength' := res, maxLength;
    if length + tmpLength >= maxLength {
      maxLength' := maxLength + 128;
      res' := Clip(res + ([':'] + tmp), if std then 127 else maxLength' - 1);
    } else {
      var size := if length <= 128 then 128 - length else SIZE_T_RANGE + 128 - length;
      if |res| == length && size > 0 {
        res' := res + Clip([':'] + tmp, size - 1);
      }
    }
    length' := length + tmpLength;
  }

  lemma TailNext(head: string, tokens: seq<string>, i: nat)
    requires i < |tokens|
    ensures head + Tail(tokens[..i + 1]) == (head + Tail(tokens[..i])) + ([':'] + tokens[i])
  {
    assert tokens[..i + 1][..i] == tokens[..i];
  }

  const SIZE_T_RANGE := 0x1_0000_0000_0000_0000

  /** strsep over the separator ':'. */
  function Split(s: string): (tokens: seq<string>)
    ensures tokens != []
    decreases |s|
  {
    var n := IndexOf(s, ':');
    if n == |s| then [s] else [s[..n]] + Split(s[n + 1..])
  }

  function ParseAll(tokens: seq<string>): Result<seq<Scheduler>> {
    if tokens == [] then Success([])
    else
      match Parse(tokens[0])
      case Failure(why) => Failure(why)
      case Success(s) =>
        match ParseAll(tokens[1..])
        case Failure(why) => Failure(why)
        case Success(more) => Success([s] + more)
  }

  /** GlobalScheduler::deserialize; an unknown name gives the default StdGS. */
  function Deserialize(s: string): Result<GlobalScheduler> {
    var n := IndexOf(s, ':');
    var tokens := Split(s);
    if SamePrefix(s, STD_NAME, n) then
      if tokens[0] != STD_NAME then Failure("assertion")
      else
        match ParseAll(tokens[1..])
        case Failure(why) => Failure(why)
        case Success(all) => Success(StdGS(all))
    else if SamePrefix(s, PRIORITY_GS_NAME, n) then
      if tokens[0] != PRIORITY_GS_NAME then Failure("assertion")
      else
        match ParseAll(tokens[1..])
        case Failure(why) => Failure(why)
        case Success(all) => Success(PriorityGS(all))
    else Success(StdGS([RR, Rand]))
  }

  lemma {:induction false} TailFront(tokens: seq<string>)
    requires tokens != []
    ensures Tail(tokens) == [':'] + tokens[0] + Tail(tokens[1..])
  {
    var n := |tokens| - 1;
    if n == 0 {
      assert tokens[..0] == [] && tokens[1..] == [];
    } else {
      var front, last := tokens[..n][1..], [':'] + tokens[n];
      TailFront(tokens[..n]);
      TailLast(tokens[1..], front);
      Assoc([':'] + tokens[0], Tail(front), last, Tail(tokens));
    }
  }

  lemma {:induction false} TailLast(tokens: seq<string>, front: seq<string>)
    requires tokens != [] && front == tokens[..|tokens| - 1]
    ensures Tail(tokens) == Tail(front) + ([':'] + tokens[|tokens| - 1])
  {
  }

  lemma BothFree(a: string, b: string, s: string, c: char)
    requires Free(a, c) && Free(b, c) && s == a + b
    ensures Free(s, c)
  {
  }

  lemma PrintedFree(s: Scheduler)
    ensures Free(Print(s), ':')
  {
    match s
    case RR =>
    case Rand =>
    case Min(tag) => DigitsFree(tag, ':');
    case Max(tag) => DigitsFree(tag, ':');
    case Priority(values) =>
      DigitsFree(|values|, ':');
      ValuesFree(values);
      var count := [','] + PrintInt(|values|);
      BothFree(count, PrintValues(values), count + PrintValues(values), ':');
      BothFree(PRIORITY_NAME, count + PrintValues(values), Print(s), ':');
  }

  lemma {:induction false} ValuesFree(values: seq<int>)
    ensures Free(PrintValues(values), ':')
  {
    if values != [] {
      DigitsFree(values[0], ':');
      ValuesFree(values[1..]);
    }
  }

  lemma {:induction false} SplitJoined(head: string, tokens: seq<string>)
    requires Free(head, ':') && forall k :: 0 <= k < |tokens| ==> Free(tokens[k], ':')
    ensures Split(head + Tail(tokens)) == [head] + tokens
    ensures IndexOf(head + Tail(tokens), ':') == |head|
    decreases |tokens|
  {
    var s := head + Tail(tokens);
    if tokens == [] {
      IndexAfter(head, ':', []);
      assert s == head;
    } else {
      var rest := tokens[0] + Tail(tokens[1..]);
      TailFront(tokens);
      assert s == head + [':'] + rest;
      IndexAfter(head, ':', rest);
      assert s[..|head|] == head && s[|head| + 1..] == rest;
      SplitJoined(tokens[0], tokens[1..]);
      assert [tokens[0]] + tokens[1..] == tokens;
    }
  }

  predicate ParsesTo(token: string, s: Scheduler) {
    Parse(token) == Success(s)
  }

  lemma {:induction false} ParseAllPrinted(schedulers: seq<Scheduler>, tokens: seq<string>)
    requires |tokens| == |schedulers| && forall k :: 0 <= k < |tokens| ==> tokens[k] == Print(schedulers[k])
    requires forall k :: 0 <= k < |schedulers| ==> Constructible(schedulers[k])
    ensures ParseAll(tokens) == Success(schedulers)
  {
    forall k | 0 <= k < |tokens| ensures ParsesTo(tokens[k], schedulers[k]) {
      ParsePrinted(schedulers[k]);
    }
    ParseEach(schedulers, tokens);
  }

  lemma {:induction false} ParseEach(schedulers: seq<Scheduler>, tokens: seq<string>)
    requires |tokens| == |schedulers| && forall k :: 0 <= k < |tokens| ==> ParsesTo(tokens[k], schedulers[k])
    ensures ParseAll(tokens) == Success(schedulers)
  {
    if schedulers != [] {
      assert ParsesTo(tokens[0], schedulers[0]);
      ParseEach(schedulers[1..], tokens[1..]);
      assert [schedulers[0]] + schedulers[1..] == schedulers;
    }
  }

  /** Round trip: any list of constructible schedulers is read back from its full string. */
  lemma DeserializeFull(gs: GlobalScheduler)
    requires forall k :: 0 <= k < |gs.schedulers| ==> Constructible(gs.schedulers[k])
    ensures Deserialize(Full(gs)) == Success(gs)
  {
    var head, tokens := NameOf(gs), Printed(gs.schedulers);
    forall k | 0 <= k < |tokens| ensures Free(tokens[k], ':') {
      PrintedFree(gs.schedulers[k]);
    }
    SplitJoined(head, tokens);
    ParseAllPrinted(gs.schedulers, tokens);
    assert Full(gs)[..|head|] == head;
    DeserializeTokens(Full(gs), gs, tokens);
  }

  lemma {:induction false} DeserializeTokens(s: string, gs: GlobalScheduler, tokens: seq<string>)
    requires Split(s) == [NameOf(gs)] + tokens
    requires IndexOf(s, ':') == |NameOf(gs)| <= |s| && s[..|NameOf(gs)|] == NameOf(gs)
    ensures Deserialize(s) == Success(gs) <==> ParseAll(tokens) == Success(gs.schedulers)
  {
    assert Split(s)[1..] == tokens;
    assert STD_NAME[..5] == STD_NAME && PRIORITY_GS_NAME[..10] == PRIORITY_GS_NAME;
  }

  // ---------------------------------------------------------------- what is received when it is cut

  ghost predicate Prefix(p: string, s: string) {
    |p| <= |s| && p == s[..|p|]
  }

  lemma {:induction false} PrefixValue(n: nat, p: string)
    requires p != [] && |p| < |Digits(n)| && p == Digits(n)[..|p|]
    ensures (forall k :: 0 <= k < |p| ==> IsDigit(p[k])) && ValueOf(p) < n
    decreases n
  {
    var front := Digits(n / 10);
    assert n >= 10 && p == front[..|p|];
    if |p| < |front| {
      PrefixValue(n / 10, p);
    } else {
      ValueOfDigits(n / 10);
    }
  }

  /** A number that lost characters at its end is no number or another one. */
  lemma CutNumber(i: int, p: string)
    requires |p| < |PrintInt(i)| && p == PrintInt(i)[..|p|]
    ensures ScanInt(p).Failure? || ScanInt(p).value.0 != i
  {
    var n: nat := if i < 0 then -i else i;
    var ds := if i < 0 && p != [] then p[1..] else p;
    if ds == [] {
      NoDigits(p);
    } else {
      PrefixValue(n, ds);
      assert ds + [] == ds;
      DigitsScanned(ds, ds, []);
      ScanSigned(p, ds, ValueOf(ds), [], i < 0);
    }
  }

  lemma NoDigits(p: string)
    requires p == [] || p == ['-']
    ensures ScanInt(p).Failure?
  {
  }

  lemma {:induction false} NoComma(s: string, p: string)
    requires Free(s, ',') && Prefix(p, s)
    ensures IndexOf(p, ',') == |p|
  {
  }

  /** The cut goes through the number in front, or takes the comma behind it away. */
  lemma {:induction false} CutHere(i: int, p: string, n: nat, values: seq<int>)
    requires values != [] && values[0] == i && n == |values|
    requires Prefix(p, PrintInt(i)) && (n == 1 ==> |p| < |PrintInt(i)|)
    ensures ParseValues(p, n) != Success(values)
  {
    DigitsFree(i, ',');
    NoComma(PrintInt(i), p);
    if n == 1 { CutNumber(i, p); }
  }

  lemma CutLater(i: int, cut: string, p: string, n: nat, values: seq<int>, others: seq<int>)
    requires n > 1 && p == PrintInt(i) + [','] + cut && values != [] && others == values[1..]
    requires ParseValues(cut, n - 1) != Success(others)
    ensures ParseValues(p, n) != Success(values)
  {
    ScanToComma(i, cut);
    AnotherValue(i, [','] + cut, cut, p, |PrintInt(i)|, n, values, others);
  }

  lemma AnotherValue(i: int, more: string, cut: string, p: string, k: nat, n: nat, values: seq<int>, others: seq<int>)
    requires n > 1 && ScanInt(p) == Success((i, more)) && IndexOf(p, ',') == k < |p| && p[k + 1..] == cut
    requires values != [] && others == values[1..] && ParseValues(cut, n - 1) != Success(others)
    ensures ParseValues(p, n) != Success(values)
  {
    if ParseValues(p, n).Success? {
      var later := ParseValues(cut, n - 1).value;
      assert ([i] + later)[1..] == later;
    }
  }

  lemma {:induction false} CutValues(values: seq<int>, n: nat, s: string, p: string)
    requires n == |values| > 0 && s == PrintValues(values)[1..] && Prefix(p, s) && |p| < |s|
    ensures ParseValues(p, n) != Success(values)
    decreases n, 1
  {
    ValuesShape(values);
    if |values| == 1 || |p| <= |PrintInt(values[0])| {
      CutInFirst(values[0], PrintValues(values[1..]), values, s, p);
    } else {
      CutInOthers(values, values[1..], PrintInt(values[0]), s, p);
    }
  }

  lemma CutInFirst(i: int, behind: string, values: seq<int>, s: string, p: string)
    requires values != [] && i == values[0] && behind == PrintValues(values[1..])
    requires s == PrintInt(i) + behind && Prefix(p, s) && |p| < |s| && (|values| == 1 || |p| <= |PrintInt(i)|)
    ensures ParseValues(p, |values|) != Success(values)
  {
    if |values| == 1 { assert values[1..] == []; }
    PrefixOfFront(PrintInt(i), behind, s, p);
    CutHere(i, p, |values|, values);
  }

  lemma CutInOthers(values: seq<int>, others: seq<int>, here: string, s: string, p: string)
    requires |values| > 1 && others == values[1..] && here == PrintInt(values[0]) && s == here + PrintValues(others)
    requires Prefix(p, s) && |here| < |p| < |s|
    ensures ParseValues(p, |values|) != Success(values)
    decreases |values|, 0
  {
    var rest, cut := PrintValues(others)[1..], p[|here| + 1..];
    ValuesShape(others);
    CommaBetween(here, PrintValues(others), rest, s);
    CutAfterComma(here, rest, s, p, cut);
    CutFurther(values[0], values, others, |others|, rest, cut, p);
  }

  lemma CutFurther(i: int, values: seq<int>, others: seq<int>, n: nat, rest: string, cut: string, p: string)
    requires values != [] && others == values[1..] && |others| == n > 0 && rest == PrintValues(others)[1..]
    requires Prefix(cut, rest) && |cut| < |rest| && p == PrintInt(i) + [','] + cut
    ensures ParseValues(p, n + 1) != Success(values)
    decreases n, 2
  {
    CutValues(others, n, rest, cut);
    CutLater(i, cut, p, n + 1, values, others);
  }

  lemma PrefixOfFront(front: string, behind: string, s: string, p: string)
    requires s == front + behind && Prefix(p, s) && |p| <= |front|
    ensures Prefix(p, front)
  {
    assert s[..|p|] == front[..|p|];
  }

  lemma CutAfterComma(here: string, rest: string, s: string, p: string, cut: string)
    requires s == here + [','] + rest && Prefix(p, s) && |p| < |s| && |p| > |here| && cut == p[|here| + 1..]
    ensures p == here + [','] + cut && Prefix(cut, rest) && |cut| < |rest|
  {
    assert s[|here|] == ',' && s[|here| + 1..] == rest && s[..|here|] == here;
    assert p == p[..|here|] + [p[|here|]] + cut;
  }

  lemma {:induction false} CutPriority(values: seq<int>, s: string, p: string)
    requires values != [] && s == [','] + PrintInt(|values|) + PrintValues(values) && Prefix(p, s) && |p| < |s|
    ensures ParsePriority(p) != Success(Priority(values))
  {
    var count, vals := PrintInt(|values|), PrintValues(values);
    if p != [] {
      var t, q := s[1..], p[1..];
      ValuesShape(values);
      CommaTwice(count, vals, vals[1..], s);
      assert t == count + [','] + vals[1..] && Prefix(q, t) && |q| < |t|;
      if |q| <= |count| {
        assert Prefix(q, count);
        DigitsFree(|values|, ',');
        NoComma(count, q);
      } else {
        var cut := q[|count| + 1..];
        CutAfterComma(count, vals[1..], t, q, cut);
        CutValues(values, |values|, vals[1..], cut);
        ScanToComma(|values|, cut);
      }
    }
  }

  lemma CutTag(tag: nat, rest: string, p: string)
    requires rest == [','] + PrintInt(tag) && Prefix(p, rest) && |p| < |rest|
    ensures ParseTag(p) != Success(tag)
  {
    if p != [] {
      assert Prefix(p[1..], PrintInt(tag));
      CutNumber(tag, p[1..]);
    }
  }

  /** Without a comma only the two schedulers without parameters are found. */
  lemma {:induction false} BareName(p: string)
    requires IndexOf(p, ',') == |p|
    ensures Parse(p).Success? ==> Parse(p).value.RR? || Parse(p).value.Rand?
  {
    assert p[|p|..] == [];
  }

  lemma CutRand(p: string)
    requires Prefix(p, RAND_NAME)
    ensures Parse(p) == Success(Rand)
  {
    NameHasNoComma(RAND_NAME);
    NoComma(RAND_NAME, p);
    assert p[|p|..] == [] && p[..|p|] == p == RAND_NAME[..|p|];
  }

  lemma CutRR(p: string)
    requires Prefix(p, RR_NAME)
    ensures Parse(p) == Success(RR) <==> |p| >= 2
  {
    NameHasNoComma(RR_NAME);
    NoComma(RR_NAME, p);
    assert p[|p|..] == [] && p[..|p|] == p == RR_NAME[..|p|];
    if |p| >= 2 {
      assert p[0] == 'R' && p[1] == 'R';
      OtherStart(p, RAND_NAME);
      OtherStart(p, MIN_NAME);
      OtherStart(p, MAX_NAME);
      OtherStart(p, PRIORITY_NAME);
    } else {
      assert p == RAND_NAME[..|p|];
    }
  }

  lemma OtherStart(p: string, name: string)
    requires |p| >= 2 && |name| >= 2 && (p[0] != name[0] || p[1] != name[1])
    ensures !SamePrefix(p, name, |p|)
  {
    if |p| <= |name| {
      assert name[..|p|][0] == name[0] && name[..|p|][1] == name[1];
      assert p[..|p|][0] == p[0] && p[..|p|][1] == p[1];
    }
  }

  /** A printed scheduler that lost characters at its end is read back iff it is a Rand, or an
      RR of which two letters are left. */
  lemma ParseCut(s: Scheduler, p: string)
    requires Constructible(s) && Prefix(p, Print(s)) && |p| < |Print(s)|
    ensures Parse(p) == Success(s) <==> s.Rand? || (s.RR? && |p| >= 2)
  {
    match s
    case RR =>
      CutRR(p);
    case Rand =>
      CutRand(p);
    case Min(tag) =>
      ParseCutList(MIN_NAME, [','] + PrintInt(tag), s, p);
    case Max(tag) =>
      ParseCutList(MAX_NAME, [','] + PrintInt(tag), s, p);
    case Priority(values) =>
      ParseCutList(PRIORITY_NAME, [','] + PrintInt(|values|) + PrintValues(values), s, p);
  }

  lemma CutSuffix(name: string, rest: string, p: string, cut: string)
    requires Prefix(p, name + rest) && |name| < |p| < |name + rest| && cut == p[|name|..]
    ensures p == name + cut && Prefix(cut, rest) && |cut| < |rest| && cut[0] == rest[0]
  {
    assert p[..|name|] == (name + rest)[..|name|] == name;
    assert (name + rest)[|name|..] == rest;
  }

  lemma ParseCutList(name: string, rest: string, s: Scheduler, p: string)
    requires IsName(name) && Constructible(s) && Prefix(p, name + rest) && |p| < |name + rest|
    requires match s
      case Min(tag) => name == MIN_NAME && rest == [','] + PrintInt(tag)
      case Max(tag) => name == MAX_NAME && rest == [','] + PrintInt(tag)
      case Priority(values) => name == PRIORITY_NAME && rest == [','] + PrintInt(|values|) + PrintValues(values)
      case _ => false
    ensures Parse(p) != Success(s)
  {
    NameHasNoComma(name);
    if |p| <= |name| {
      PrefixOfFront(name, rest, name + rest, p);
      NoComma(name, p);
      BareName(p);
    } else {
      var cut := p[|name|..];
      CutSuffix(name, rest, p, cut);
      NameFound(name, cut, p);
      match s
      case Min(tag) => CutTag(tag, rest, cut);
      case Max(tag) => CutTag(tag, rest, cut);
      case Priority(values) => CutPriority(values, rest, cut);
    }
  }

  lemma {:induction false} ParseAllButLast(schedulers: seq<Scheduler>, last: Scheduler, tokens: seq<string>,
                                           token: string, all: seq<string>, list: seq<Scheduler>)
    requires |tokens| == |schedulers| && forall k :: 0 <= k < |tokens| ==> ParsesTo(tokens[k], schedulers[k])
    requires all == tokens + [token] && list == schedulers + [last]
    ensures ParseAll(all) == Success(list) <==> Parse(token) == Success(last)
    decreases |tokens|
  {
    ParseFirst(all, list);
    if tokens == [] {
      assert all[1..] == [] && list[1..] == [] && ParseAll([]) == Success([]);
    } else {
      assert ParsesTo(tokens[0], schedulers[0]);
      assert all[1..] == tokens[1..] + [token] && list[1..] == schedulers[1..] + [last];
      ParseAllButLast(schedulers[1..], last, tokens[1..], token, all[1..], list[1..]);
    }
  }

  lemma {:induction false} ParseFirst(tokens: seq<string>, list: seq<Scheduler>)
    requires tokens != [] && list != []
    ensures ParseAll(tokens) == Success(list) <==>
      Parse(tokens[0]) == Success(list[0]) && ParseAll(tokens[1..]) == Success(list[1..])
  {
    if ParseAll(tokens).Success? {
      var first, more := Parse(tokens[0]).value, ParseAll(tokens[1..]).value;
      assert ([first] + more)[0] == first && ([first] + more)[1..] == more;
    }
    assert [list[0]] + list[1..] == list;
  }

  lemma {:induction false} ParseAllLength(tokens: seq<string>)
    ensures ParseAll(tokens).Success? ==> |ParseAll(tokens).value| == |tokens|
  {
    if tokens != [] { ParseAllLength(tokens[1..]); }
  }

  lemma {:induction false} IndexInPrefix(s: string, c: char, p: string)
    requires Prefix(p, s) && IndexOf(s, c) < |p|
    ensures IndexOf(p, c) == IndexOf(s, c)
  {
    assert p[IndexOf(s, c)] == c;
  }

  /** A prefix has no more tokens. */
  lemma {:induction false} SplitPrefix(s: string, p: string)
    requires Prefix(p, s)
    ensures |Split(p)| <= |Split(s)|
    decreases |s|
  {
    var n := IndexOf(s, ':');
    if n < |p| {
      IndexInPrefix(s, ':', p);
      SplitPrefix(s[n + 1..], p[n + 1..]);
    } else {
      NoColon(s, n, p);
    }
  }

  lemma {:induction false} NoColon(s: string, n: nat, p: string)
    requires Prefix(p, s) && n == IndexOf(s, ':') && n >= |p|
    ensures Split(p) == [p]
  {
    assert IndexOf(p, ':') == |p|;
  }

  /** The string in front of the last ':'. */
  function Head(gs: GlobalScheduler): string
    requires gs.schedulers != []
  {
    NameOf(gs) + Tail(Printed(gs.schedulers[..|gs.schedulers| - 1]))
  }

  lemma FullOfLast(gs: GlobalScheduler)
    requires gs.schedulers != []
    ensures Full(gs) == Head(gs) + ([':'] + Print(gs.schedulers[|gs.schedulers| - 1]))
  {
    var n := |gs.schedulers| - 1;
    var tokens, front := Printed(gs.schedulers), Printed(gs.schedulers[..n]);
    assert tokens[..n] == front && tokens[..n + 1] == tokens;
    LastOfTail(NameOf(gs), tokens, front, n);
  }

  lemma {:induction false} LastOfTail(head: string, tokens: seq<string>, front: seq<string>, n: nat)
    requires |tokens| == n + 1 && front == tokens[..n] && tokens[..n + 1] == tokens
    ensures head + Tail(tokens) == (head + Tail(front)) + ([':'] + tokens[n])
  {
    TailNext(head, tokens, n);
  }

  /** When the cut goes through the last scheduler, that one decides. */
  lemma CutInLast(gs: GlobalScheduler, k: nat)
    requires gs.schedulers != [] && forall i :: 0 <= i < |gs.schedulers| ==> Constructible(gs.schedulers[i])
    requires |Head(gs)| < k < |Full(gs)|
    ensures var last := gs.schedulers[|gs.schedulers| - 1];
      Deserialize(Full(gs)[..k]) == Success(gs) <==>
        last.Rand? || (last.RR? && k >= |Head(gs)| + 3)
  {
    var n := |gs.schedulers| - 1;
    var front, last := gs.schedulers[..n], gs.schedulers[n];
    FullOfLast(gs);
    LastApart(gs.schedulers, n);
    CutThrough(gs, front, last, Head(gs), Full(gs), k);
  }

  lemma LastApart<T>(xs: seq<T>, n: nat)
    requires |xs| == n + 1
    ensures xs == xs[..n] + [xs[n]]
  {
  }

  lemma CutThrough(gs: GlobalScheduler, front: seq<Scheduler>, last: Scheduler, head: string, s: string, k: nat)
    requires (forall i :: 0 <= i < |front| ==> Constructible(front[i])) && Constructible(last)
    requires gs.schedulers == front + [last] && head == NameOf(gs) + Tail(Printed(front))
    requires s == head + ([':'] + Print(last)) && |head| < k < |s|
    ensures Deserialize(s[..k]) == Success(gs) <==> last.Rand? || (last.RR? && k >= |head| + 3)
  {
    var p := Print(last)[..k - |head| - 1];
    CutBehind(head, Print(last), s, k, p);
    ParseCut(last, p);
    CutTokens(gs, front, Printed(front), p, s[..k], last);
  }

  lemma CutBehind(front: string, token: string, s: string, k: nat, p: string)
    requires s == front + ([':'] + token) && |front| < k < |s| && p == token[..k - |front| - 1]
    ensures s[..k] == front + ([':'] + p) && Prefix(p, token) && |p| < |token|
  {
  }

  lemma {:induction false} CutTokens(gs: GlobalScheduler, front: seq<Scheduler>, tokens: seq<string>, p: string,
                                     s: string, last: Scheduler)
    requires (forall i :: 0 <= i < |front| ==> Constructible(front[i])) && gs.schedulers == front + [last]
    requires tokens == Printed(front) && Prefix(p, Print(last)) && s == (NameOf(gs) + Tail(tokens)) + ([':'] + p)
    ensures Deserialize(s) == Success(gs) <==> Parse(p) == Success(last)
  {
    forall i | 0 <= i < |tokens| ensures ParsesTo(tokens[i], front[i]) && Free(tokens[i], ':') {
      ParsePrinted(front[i]);
      PrintedFree(front[i]);
    }
    PrintedFree(last);
    ParseAllButLast(front, last, tokens, p, tokens + [p], gs.schedulers);
    TokensRead(gs, tokens, p, tokens + [p], s);
  }

  lemma {:induction false} TokensRead(gs: GlobalScheduler, tokens: seq<string>, p: string, all: seq<string>, s: string)
    requires (forall i :: 0 <= i < |tokens| ==> Free(tokens[i], ':')) && Free(p, ':') && all == tokens + [p]
    requires s == (NameOf(gs) + Tail(tokens)) + ([':'] + p)
    ensures Deserialize(s) == Success(gs) <==> ParseAll(all) == Success(gs.schedulers)
  {
    var n := |tokens|;
    assert all[..n] == tokens && all[n] == p && all[..n + 1] == all;
    TailNext(NameOf(gs), all, n);
    SplitJoined(NameOf(gs), all);
    HeadOf(NameOf(gs), Tail(all), s);
    DeserializeTokens(s, gs, all);
  }

  lemma HeadOf(head: string, rest: string, s: string)
    requires s == head + rest
    ensures |head| <= |s| && s[..|head|] == head
  {
  }

  /** When the cut takes the last scheduler away, or more, too few are received. */
  lemma CutBeforeLast(gs: GlobalScheduler, k: nat)
    requires gs.schedulers != [] && |NameOf(gs)| < k <= |Head(gs)|
    ensures k <= |Full(gs)| && Deserialize(Full(gs)[..k]) != Success(gs)
  {
    var n := |gs.schedulers| - 1;
    var tokens, s := Printed(gs.schedulers[..n]), Head(gs);
    FullOfLast(gs);
    PrefixOfFront(s, [':'] + Print(gs.schedulers[n]), Full(gs), Full(gs)[..k]);
    forall i | 0 <= i < |tokens| ensures Free(tokens[i], ':') {
      PrintedFree(gs.schedulers[i]);
    }
    SplitJoined(NameOf(gs), tokens);
    TooFew(gs, s, Full(gs)[..k]);
  }

  lemma {:induction false} TooFew(gs: GlobalScheduler, s: string, p: string)
    requires |Split(s)| <= |gs.schedulers| && Prefix(p, s) && IndexOf(s, ':') == |NameOf(gs)| < |p|
    requires Prefix(NameOf(gs), s)
    ensures Deserialize(p) != Success(gs)
  {
    IndexInPrefix(s, ':', p);
    SplitPrefix(s, p);
    assert p[..|NameOf(gs)|] == NameOf(gs);
    DeserializeTokens(p, gs, Split(p)[1..]);
    ParseAllLength(Split(p)[1..]);
  }

  /** The cut of a `StdGS` at 127 characters goes unnoticed: it only takes letters of a last
      Rand, or of a last RR all but two or more. */
  predicate CutUnseen(gs: GlobalScheduler) {
    && gs.schedulers != [] && |Head(gs)| < 127
    && var last := gs.schedulers[|gs.schedulers| - 1];
      last.Rand? || (last.RR? && |Head(gs)| <= 124)
  }

  lemma NameOnly(gs: GlobalScheduler)
    ensures gs.schedulers == [] ==> |Full(gs)| == |NameOf(gs)|
  {
    assert gs.schedulers == [] ==> Printed(gs.schedulers) == [];
  }

  lemma StdGSCut(gs: GlobalScheduler)
    requires gs.StdGS? && forall k :: 0 <= k < |gs.schedulers| ==> Constructible(gs.schedulers[k])
    requires |Full(gs)| >= 128
    ensures Deserialize(Full(gs)[..127]) == Success(gs) <==> CutUnseen(gs)
  {
    NameOnly(gs);
    if |Head(gs)| < 127 {
      CutInLast(gs, 127);
    } else {
      CutBeforeLast(gs, 127);
    }
  }

  lemma PriorityGSCut(gs: GlobalScheduler)
    requires gs.PriorityGS? && |gs.schedulers| == 1 && Constructible(gs.schedulers[0]) && |Full(gs)| >= 256
    ensures Deserialize(Full(gs)[..255]) != Success(gs)
  {
    assert gs.schedulers[..0] == [] && Printed([]) == [] && Head(gs) == PRIORITY_GS_NAME + [];
    FullOfLast(gs);
    CutInLast(gs, 255);
  }

  /** What the other side makes of a transmitted string. */
  function Receive(s: Result<string>): Result<GlobalScheduler> {
    if s.Failure? then Failure("nothing sent") else Deserialize(s.value)
  }

  /** `StdGS` transmits its full string iff every scheduler fits its own buffer and the string
      fits the first buffer of 128 bytes; it is received iff this or an unseen cut. */
  method SendStdGS(gs: GlobalScheduler) returns (s: Result<string>, received: Result<GlobalScheduler>)
    requires gs.StdGS? && forall k :: 0 <= k < |gs.schedulers| ==> Constructible(gs.schedulers[k])
    ensures s.Success? <==> AllFit(gs.schedulers)
    ensures s == Success(Full(gs)) <==> AllFit(gs.schedulers) && |Full(gs)| < 128
    ensures received == Success(gs) <==> AllFit(gs.schedulers) && (|Full(gs)| < 128 || CutUnseen(gs))
  {
    s := Serialize(gs);
    received := Receive(s);
    DeserializeFull(gs);
    if |Full(gs)| >= 128 { StdGSCut(gs); }
  }

  /** The one-scheduler `PriorityGS` that agents build transmits it iff the list fits its
      buffer and the string fits 256 bytes; it is not received otherwise. */
  method SendPriorityGS(gs: GlobalScheduler) returns (s: Result<string>, received: Result<GlobalScheduler>)
    requires gs.PriorityGS? && |gs.schedulers| == 1 && Constructible(gs.schedulers[0])
    ensures s.Success? <==> Fits(gs.schedulers[0])
    ensures s == Success(Full(gs)) <==> Fits(gs.schedulers[0]) && |Full(gs)| < 256
    ensures received == Success(gs) <==> Fits(gs.schedulers[0]) && |Full(gs)| < 256
  {
    s := Serialize(gs);
    received := Receive(s);
    DeserializeFull(gs);
    if |Full(gs)| >= 256 { PriorityGSCut(gs); }
  }

  /** The schedulers of StdGS::init are always transmitted. */
  lemma DefaultIsSent()
    ensures AllFit([RR, Rand]) && |Full(StdGS([RR, Rand]))| < 128
  {
    var tokens := Printed([RR, Rand]);
    assert tokens == [RR_NAME, RAND_NAME];
    assert tokens[..1] == [RR_NAME] && [RR_NAME][..0] == [];
    assert Tail([RR_NAME]) == [] + ([':'] + RR_NAME);
    assert Tail(tokens) == Tail([RR_NAME]) + ([':'] + RAND_NAME);
  }

  /** A list of one short value overruns its buffer, long before the string is too long. */
  lemma PriorityOverrun()
    ensures !AllFit([Priority([-1000])]) && |Full(PriorityGS([Priority([-1000])]))| == 36
  {
    OneValueFits(-1000);
    var gs := PriorityGS([Priority([-1000])]);
    assert !Fits(gs.schedulers[0]);
    var token := Print(Priority([-1000]));
    assert Printed(gs.schedulers) == [token] && [token][..0] == [];
    assert Tail([token]) == [] + ([':'] + token);
    assert PrintValues([-1000]) == [','] + PrintInt(-1000) + [] by { assert [-1000][1..] == []; }
    assert |Digits(1000)| == 4 by {
      assert |Digits(100)| == 3 by { assert |Digits(10)| == 2 by { assert |Digits(1)| == 1; } }
    }
    assert |PrintInt(1)| == 1;
  }
}
