/** What is written on the wire, character by character, and what a receiver makes of
    strings that no scheduler printed: src/agent/Schedulers.cc and GlobalSchedulers.cc. */
module SerializedForm {
  import opened Serialization

  // ---------------------------------------------------------------- the strings

  /** The name of the default scheduler with the two schedulers it always has. */
  lemma DefaultForm()
    ensures Full(StdGS([RR, Rand])) == "StdGS:RRScheduler:RandScheduler"
  {
    TwoTokens(Printed([RR, Rand]));
    DefaultText();
  }

  lemma DefaultText()
    ensures STD_NAME + (":" + RR_NAME + (":" + RAND_NAME)) == "StdGS:RRScheduler:RandScheduler"
  {
  }

  lemma TwoTokens(tokens: seq<string>)
    requires |tokens| == 2
    ensures Tail(tokens) == ":" + tokens[0] + (":" + tokens[1])
  {
    OneToken(tokens[..1]);
  }

  lemma OneToken(tokens: seq<string>)
    requires |tokens| == 1
    ensures Tail(tokens) == ":" + tokens[0]
  {
    assert tokens[..0] == [];
  }

  lemma NumberForms()
    ensures PrintInt(2) == "2" && PrintInt(-4) == "-4" && PrintInt(30) == "30"
  {
    assert Digits(3) == "3" && Digits(30) == Digits(3) + "0";
  }

  /** Count and values of a priority list, separated by commas. */
  lemma PriorityForm()
    ensures Print(Min(30)) == "MinScheduler,30" && Print(Max(2)) == "MaxScheduler,2"
    ensures Print(Priority([-4, 30])) == "PriorityScheduler,2,-4,30"
  {
    NumberForms();
    assert PrintValues([]) == "" && [30][1..] == [] && [-4, 30][1..] == [30];
    assert PrintValues([30]) == ",30";
    assert PrintValues([-4, 30]) == ",-4,30";
  }

  // ---------------------------------------------------------------- names

  ghost predicate Begins(name: string, full: string) {
    |name| <= |full| && name == full[..|name|]
  }

  /** A name that begins neither known one gives the default; only a whole name is read
      on, and the beginning of one, the empty name included, hits the assertion. */
  lemma GlobalName(s: string, name: string)
    requires name == s[..IndexOf(s, ':')]
    ensures !Begins(name, "StdGS") && !Begins(name, "PriorityGS") ==>
      Deserialize(s) == Success(StdGS([RR, Rand]))
    ensures (Begins(name, "StdGS") && name != "StdGS") || (Begins(name, "PriorityGS") && name != "PriorityGS") ==>
      Deserialize(s).Failure?
    ensures name == "StdGS" || name == "PriorityGS" ==>
      (Deserialize(s).Success? <==> ParseAll(Split(s)[1..]).Success?)
  {
    FirstToken(s, name);
    FirstLetter(name, "StdGS");
    FirstLetter(name, "PriorityGS");
  }

  lemma FirstLetter(name: string, full: string)
    requires full != []
    ensures Begins(name, full) ==> name == "" || name[0] == full[0]
    ensures Begins(full, full)
  {
  }

  lemma FirstToken(s: string, name: string)
    requires name == s[..IndexOf(s, ':')]
    ensures Split(s)[0] == name
  {
  }

  /** A scheduler name that begins none of the five known ones gives Rand. */
  lemma UnknownScheduler(s: string, name: string)
    requires name == s[..IndexOf(s, ',')]
    requires !Begins(name, "RandScheduler") && !Begins(name, "RRScheduler") && !Begins(name, "PriorityScheduler")
    requires !Begins(name, "MinScheduler") && !Begins(name, "MaxScheduler")
    ensures Parse(s) == Success(Rand)
  {
  }

  // ---------------------------------------------------------------- parameters

  /** RR and Rand take no parameters, not even a comma. */
  lemma NoParameters(name: string, rest: string)
    requires name == "RRScheduler" || name == "RandScheduler"
    requires rest == [] || rest[0] == ','
    ensures Parse(name + rest) ==
      if rest != [] then Failure("assertion") else Success(if name == "RRScheduler" then RR else Rand)
  {
    NameFound(name, rest, name + rest);
  }

  /** Min and Max take one number and nothing behind it, and it must not be negative. */
  lemma OneTag(tag: int, rest: string)
    requires rest == [] || !IsDigit(rest[0])
    ensures Parse("MinScheduler" + ([','] + PrintInt(tag) + rest)).Success? <==> tag >= 0 && rest == []
    ensures Parse("MaxScheduler" + ([','] + PrintInt(tag) + rest)).Success? <==> tag >= 0 && rest == []
  {
    var s := [','] + PrintInt(tag) + rest;
    TagDecides(tag, rest, s);
    TagBehind("MinScheduler", s, "MinScheduler" + s);
    TagBehind("MaxScheduler", s, "MaxScheduler" + s);
  }

  lemma TagDecides(tag: int, rest: string, s: string)
    requires (rest == [] || !IsDigit(rest[0])) && s == [','] + PrintInt(tag) + rest
    ensures ParseTag(s) == if rest == [] then Success(tag) else Failure("invalid parameters")
  {
    assert s[1..] == PrintInt(tag) + rest;
    ScanPrinted(tag, rest);
  }

  lemma TagBehind(name: string, rest: string, s: string)
    requires (name == "MinScheduler" || name == "MaxScheduler") && s == name + rest && rest != [] && rest[0] == ','
    ensures Parse(s).Success? <==> ParseTag(rest).Success? && ParseTag(rest).value >= 0
    ensures Parse(s).Success? ==>
      Parse(s).value == if name == "MinScheduler" then Min(ParseTag(rest).value) else Max(ParseTag(rest).value)
  {
    NameFound(name, rest, s);
  }

  /** What n values read from s are: the first ones printed. */
  ghost predicate ReadsFirst(s: string, n: nat, values: seq<int>) {
    n > 0 ==> ParseValues(s, n) == if n <= |values| then Success(values[..n]) else Failure("reads through NULL")
  }

  /** The first n of the printed values are read; there is no value after the last one. */
  lemma {:induction false} FirstValues(values: seq<int>, s: string, n: nat)
    requires values != [] && s == PrintValues(values)[1..]
    ensures ReadsFirst(s, n, values)
  {
    if |values| == 1 {
      OneLeft(values, s, n);
    } else {
      var rest := PrintValues(values[1..])[1..];
      if n > 1 { FirstValues(values[1..], rest, n - 1); }
      MoreLeft(values, values[1..], s, rest, n);
    }
  }

  lemma OneLeft(values: seq<int>, s: string, n: nat)
    requires |values| == 1 && s == PrintValues(values)[1..]
    ensures ReadsFirst(s, n, values)
  {
    ValuesShape(values);
    assert s == PrintInt(values[0]) by {
      assert values[1..] == [] && PrintInt(values[0]) + [] == PrintInt(values[0]);
    }
    if n > 0 {
      NoMoreValues(s, values[0], n);
      TakeFirst(values, 1);
    }
  }

  lemma MoreLeft(values: seq<int>, others: seq<int>, s: string, rest: string, n: nat)
    requires |values| > 1 && others == values[1..]
    requires s == PrintValues(values)[1..] && rest == PrintValues(others)[1..]
    requires n > 1 ==> ReadsFirst(rest, n - 1, others)
    ensures ReadsFirst(s, n, values)
  {
    ValuesShape(values);
    ValuesShape(others);
    CommaBetween(PrintInt(values[0]), PrintValues(others), rest, s);
    OneBefore(values, others, s, rest, n);
  }

  lemma OneBefore(values: seq<int>, others: seq<int>, s: string, rest: string, n: nat)
    requires values != [] && others == values[1..] && s == PrintInt(values[0]) + [','] + rest
    requires n > 1 ==> ReadsFirst(rest, n - 1, others)
    ensures ReadsFirst(s, n, values)
  {
    if n > 0 {
      ReadValue(s, values[0], rest, n);
      if n <= |values| { TakeFirst(values, n); }
    }
  }

  lemma TakeFirst(values: seq<int>, n: nat)
    requires 0 < n <= |values|
    ensures values[..n] == [values[0]] + values[1..][..n - 1]
    ensures n == 1 ==> values[..n] == [values[0]]
  {
  }

  lemma NoMoreValues(s: string, i: int, n: nat)
    requires s == PrintInt(i) && n > 0
    ensures ParseValues(s, n) == if n == 1 then Success([i]) else Failure("reads through NULL")
  {
    assert s == PrintInt(i) + [];
    ScanPrinted(i, []);
    DigitsFree(i, ',');
    NoComma(s);
  }

  lemma NoComma(s: string)
    requires Free(s, ',')
    ensures IndexOf(s, ',') == |s|
  {
  }

  lemma ReadValue(s: string, i: int, rest: string, n: nat)
    requires s == PrintInt(i) + [','] + rest && n > 0
    ensures n == 1 ==> ParseValues(s, n) == Success([i])
    ensures n > 1 && ParseValues(rest, n - 1).Success? ==>
      ParseValues(s, n) == Success([i] + ParseValues(rest, n - 1).value)
    ensures n > 1 && ParseValues(rest, n - 1).Failure? ==> ParseValues(s, n) == ParseValues(rest, n - 1)
  {
    ScanToComma(i, rest);
  }

  /** The count decides: as many values are read, if it is positive and there are so many. */
  lemma CountDecides(count: int, values: seq<int>, s: string)
    requires values != [] && s == [','] + PrintInt(count) + PrintValues(values)
    ensures Parse("PriorityScheduler" + s).Success? <==> 0 < count <= |values|
    ensures 0 < count <= |values| ==> Parse("PriorityScheduler" + s) == Success(Priority(values[..count]))
  {
    ListBehind("PriorityScheduler" + s, s);
    var vals := PrintValues(values);
    ValuesShape(values);
    CommaTwice(PrintInt(count), vals, vals[1..], s);
    ReadCount(s, count, vals[1..]);
    if count > 0 { FirstValues(values, vals[1..], count); }
  }

  lemma ReadCount(s: string, count: int, rest: string)
    requires s == [','] + (PrintInt(count) + [','] + rest)
    ensures ParsePriority(s).Success? <==> count > 0 && ParseValues(rest, count).Success?
    ensures ParsePriority(s).Success? ==> ParsePriority(s).value == Priority(ParseValues(rest, count).value)
  {
    assert s[1..] == PrintInt(count) + [','] + rest;
    ScanToComma(count, rest);
  }

  lemma ListBehind(s: string, rest: string)
    requires s == "PriorityScheduler" + rest && rest != [] && rest[0] == ','
    ensures Parse(s) == ParsePriority(rest)
  {
    NameFound("PriorityScheduler", rest, s);
  }
}
