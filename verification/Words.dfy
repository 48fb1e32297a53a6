/** Amounts in words, in the Indian grouping, and the reading that recovers the amount. */
module Words {

  /** The words a printed amount is made of; `Compound` is the hyphenated twenty-one to ninety-nine. */
  datatype Token =
    | Ones(n: nat) | Tens(n: nat) | Compound(tens: nat, ones: nat)
    | Hundred | And | Thousand | Lakh | Crore
    | Rupees | Paise | Minus | Only

  const CRORE := 10_000_000
  const LAKH := 100_000
  const THOUSAND := 1_000

  /** Twenty and above by tens, below that by name. */
  function UnderHundred(value: nat): seq<Token>
    requires value < 100
  {
    if value >= 20 then [if value % 10 != 0 then Compound(value / 10, value % 10) else Tens(value / 10)]
    else if value > 0 then [Ones(value)]
    else []
  }

  function UnderThousand(value: nat): seq<Token>
    requires value < 1000
  {
    if value >= 100 then
      [Ones(value / 100), Hundred] + (if value % 100 != 0 then [And] else []) + UnderHundred(value % 100)
    else UnderHundred(value)
  }

  /** A group below a thousand and the scale it counts, or nothing when the group is empty. */
  function Group(count: nat, name: Token): seq<Token>
    requires count < 1000
  {
    if count == 0 then [] else UnderThousand(count) + [name]
  }

  /** Crores of whatever size, then the lakhs, the thousands and what is left. */
  function InWords(value: nat): seq<Token>
    decreases value
  {
    if value == 0 then [Ones(0)]
    else Crores(value) + Group(LakhsIn(value), Lakh) + Group(ThousandsIn(value), Thousand) + UnderThousand(RestOf(value))
  }

  /** How many lakhs are left once the crores are out, how many thousands after that, and the rest. */
  function LakhsIn(value: nat): (n: nat)
    ensures n < 100
  {
    value % CRORE / LAKH
  }

  function ThousandsIn(value: nat): (n: nat)
    ensures n < 100
  {
    value % CRORE % LAKH / THOUSAND
  }

  function RestOf(value: nat): (n: nat)
    ensures n < 1000
  {
    value % CRORE % LAKH % THOUSAND
  }

  function Crores(value: nat): seq<Token>
    requires value > 0
    decreases value, 0
  {
    if value >= CRORE then InWords(value / CRORE) + [Crore] else []
  }

  const Scales: seq<(nat, Token)> := [(CRORE, Crore), (LAKH, Lakh), (THOUSAND, Thousand)]

  /** What is still unsaid once the first `n` scales have been taken out, and what has been said. */
  function Unsaid(value: nat, n: nat): nat
    requires n <= 3
  {
    if n == 0 then value else if n == 1 then value % CRORE else if n == 2 then value % CRORE % LAKH else RestOf(value)
  }

  function Said(value: nat, n: nat): seq<Token>
    requires n <= 3 && value > 0
  {
    if n == 0 then []
    else if n == 1 then Crores(value)
    else if n == 2 then Crores(value) + Group(LakhsIn(value), Lakh)
    else Crores(value) + Group(LakhsIn(value), Lakh) + Group(ThousandsIn(value), Thousand)
  }

  lemma Quotients(value: nat, scale: nat)
    requires scale > 1
    ensures value < scale ==> value % scale == value && value / scale == 0
    ensures value > 0 ==> value / scale < value
    ensures value % scale <= value && value / scale * scale + value % scale == value
  {
    var q, r := value / scale, value % scale;
    assert value == scale * q + r && 0 <= r < scale;
    Doubles(scale, q);
  }

  lemma Doubles(scale: nat, q: nat)
    requires scale > 1
    ensures scale * q >= 2 * q && (q > 0 ==> scale * q >= scale)
  {
  }

  lemma SmallWords(value: nat)
    requires 0 < value < 1000
    ensures InWords(value) == UnderThousand(value)
  {
    Quotients(value, CRORE);
    Quotients(value, LAKH);
    Quotients(value, THOUSAND);
    NothingBefore(UnderThousand(value));
  }

  lemma NothingBefore(words: seq<Token>)
    ensures [] + [] + [] + words == words
  {
  }

  /** Taking one scale out: the quotient is smaller than the amount, and its words are what that scale says. */
  lemma ScaleStep(amount: nat, n: nat)
    requires amount > 0 && n < 3
    ensures
      var (scale, name, value) := (Scales[n].0, Scales[n].1, Unsaid(amount, n));
      && scale > 1 && (value >= scale ==> value / scale < amount)
      && Unsaid(amount, n + 1) == (if value >= scale then value % scale else value)
      && Said(amount, n + 1) == Said(amount, n) + (if value >= scale then InWords(value / scale) + [name] else [])
  {
    var (scale, value) := (Scales[n].0, Unsaid(amount, n));
    Quotients(value, scale);
    Quotients(amount, CRORE);
    Quotients(amount % CRORE, LAKH);
    if n > 0 && value >= scale { SmallWords(value / scale); }
  }

  /** The printer itself: a loop over the scales that takes each quotient out of the value and prints it in turn. */
  method PrintWords(amount: nat) returns (parts: seq<Token>)
    ensures parts == InWords(amount)
    decreases amount
  {
    if amount == 0 {
      return [Ones(0)];
    }
    parts := [];
    var value := amount;
    var n := 0;
    while n < 3
      invariant 0 <= n <= 3
      invariant value == Unsaid(amount, n)
      invariant parts == Said(amount, n)
    {
      ScaleStep(amount, n);
      var (scale, name) := Scales[n];
      if value >= scale {
        var quotient := PrintWords(value / scale);
        parts := parts + (quotient + [name]);
        value := value % scale;
      }
      n := n + 1;
    }
    if value != 0 {
      parts := parts + UnderThousand(value);
    }
  }

  // ------------------------------------------------------------------ reading words back

  /** `done` is what larger scales have claimed; `group` is the group being read. */
  datatype Reading = Reading(done: int, group: int)

  /** A crore multiplies everything read so far; a lakh or a thousand, the pending group. */
  function Read(r: Reading, t: Token): Reading {
    match t
    case Ones(n) => Reading(r.done, r.group + n)
    case Tens(n) => Reading(r.done, r.group + 10 * n)
    case Compound(tens, ones) => Reading(r.done, r.group + 10 * tens + ones)
    case Hundred => Reading(r.done, r.group * 100)
    case Thousand => Reading(r.done + r.group * THOUSAND, 0)
    case Lakh => Reading(r.done + r.group * LAKH, 0)
    case Crore => Reading((r.done + r.group) * CRORE, 0)
    case _ => r
  }

  function ReadAll(r: Reading, words: seq<Token>): Reading {
    if |words| == 0 then r else Read(ReadAll(r, words[..|words| - 1]), words[|words| - 1])
  }

  function ValueOf(words: seq<Token>): int {
    var r := ReadAll(Reading(0, 0), words);
    r.done + r.group
  }

  lemma {:induction false} ReadInTwo(r: Reading, a: seq<Token>, b: seq<Token>)
    ensures ReadAll(r, a + b) == ReadAll(ReadAll(r, a), b)
  {
    if |b| == 0 {
      assert a + b == a;
    } else {
      assert (a + b)[..|a + b| - 1] == a + b[..|b| - 1];
      ReadInTwo(r, a, b[..|b| - 1]);
    }
  }

  lemma ReadOne(r: Reading, t: Token)
    ensures ReadAll(r, [t]) == Read(r, t)
  {
    assert [t][..0] == [];
  }

  lemma UnderHundredReads(value: nat, r: Reading)
    requires value < 100
    ensures ReadAll(r, UnderHundred(value)) == Reading(r.done, r.group + value)
  {
    if value > 0 { ReadOne(r, UnderHundred(value)[0]); }
  }

  /** A group under a thousand is read into the pending group and disturbs nothing before it. */
  lemma UnderThousandReads(value: nat, done: int)
    requires value < 1000
    ensures ReadAll(Reading(done, 0), UnderThousand(value)) == Reading(done, value)
  {
    if value < 100 {
      UnderHundredReads(value, Reading(done, 0));
    } else {
      var head := [Ones(value / 100), Hundred];
      var link := if value % 100 != 0 then [And] else [];
      assert head[..1] == [Ones(value / 100)];
      ReadOne(Reading(done, 0), Ones(value / 100));
      assert ReadAll(Reading(done, 0), head) == Reading(done, value / 100 * 100);
      ReadInTwo(Reading(done, 0), head, link);
      if value % 100 != 0 { ReadOne(Reading(done, value / 100 * 100), And); }
      ReadInTwo(Reading(done, 0), head + link, UnderHundred(value % 100));
      UnderHundredReads(value % 100, Reading(done, value / 100 * 100));
    }
  }

  /** A lakh or thousand group, read after whatever larger scales have claimed. */
  lemma GroupReads(done: int, count: nat, name: Token, scale: nat)
    requires count < 1000 && ((name == Lakh && scale == LAKH) || (name == Thousand && scale == THOUSAND))
    ensures ReadAll(Reading(done, 0), Group(count, name)) == Reading(done + count * scale, 0)
  {
    if count > 0 {
      UnderThousandReads(count, done);
      ReadInTwo(Reading(done, 0), UnderThousand(count), [name]);
      ReadOne(Reading(done, count), name);
    }
  }

  /** Four stretches of words read one after another. */
  lemma FourStretches(crores: seq<Token>, lakhs: seq<Token>, thousands: seq<Token>, rest: seq<Token>, c: int, l: int, t: int, u: int)
    requires ReadAll(Reading(0, 0), crores) == Reading(c, 0)
    requires ReadAll(Reading(c, 0), lakhs) == Reading(c + l, 0)
    requires ReadAll(Reading(c + l, 0), thousands) == Reading(c + l + t, 0)
    requires ReadAll(Reading(c + l + t, 0), rest) == Reading(c + l + t, u)
    ensures ValueOf(crores + lakhs + thousands + rest) == c + l + t + u
  {
    ReadInTwo(Reading(0, 0), crores + lakhs + thousands, rest);
    ReadInTwo(Reading(0, 0), crores + lakhs, thousands);
    ReadInTwo(Reading(0, 0), crores, lakhs);
  }

  /** Every natural number is recovered from its words, however many crores of crores it takes. */
  lemma {:induction false} WordsRoundTrip(value: nat)
    ensures ValueOf(InWords(value)) == value
    decreases value
  {
    if value == 0 {
      ReadOne(Reading(0, 0), Ones(0));
    } else {
      var c := value / CRORE * CRORE;
      CroresRead(value);
      var l, t := SmallerStretches(value, c);
      FourStretches(Crores(value), Group(LakhsIn(value), Lakh), Group(ThousandsIn(value), Thousand), UnderThousand(RestOf(value)), c, l, t, RestOf(value));
      Quotients(value, CRORE);
    }
  }

  /** The lakhs, the thousands and the rest, read in turn, and what they come to. */
  lemma SmallerStretches(value: nat, c: int) returns (l: int, t: int)
    ensures ReadAll(Reading(c, 0), Group(LakhsIn(value), Lakh)) == Reading(c + l, 0)
    ensures ReadAll(Reading(c + l, 0), Group(ThousandsIn(value), Thousand)) == Reading(c + l + t, 0)
    ensures ReadAll(Reading(c + l + t, 0), UnderThousand(RestOf(value))) == Reading(c + l + t, RestOf(value))
    ensures l + t + RestOf(value) == value % CRORE
  {
    l, t := LakhsIn(value) * LAKH, ThousandsIn(value) * THOUSAND;
    GroupReads(c, LakhsIn(value), Lakh, LAKH);
    GroupReads(c + l, ThousandsIn(value), Thousand, THOUSAND);
    UnderThousandReads(RestOf(value), c + l + t);
    Quotients(value % CRORE, LAKH);
    Quotients(value % CRORE % LAKH, THOUSAND);
  }

  lemma {:induction false} CroresRead(value: nat)
    requires value > 0
    ensures ReadAll(Reading(0, 0), Crores(value)) == Reading(value / CRORE * CRORE, 0)
    decreases value, 0
  {
    if value >= CRORE {
      WordsRoundTrip(value / CRORE);
      ReadInTwo(Reading(0, 0), InWords(value / CRORE), [Crore]);
      ReadOne(ReadAll(Reading(0, 0), InWords(value / CRORE)), Crore);
    }
  }

  /** Different numbers never print alike. */
  lemma WordsAreDistinct(a: nat, b: nat)
    ensures InWords(a) == InWords(b) <==> a == b
  {
    WordsRoundTrip(a);
    WordsRoundTrip(b);
  }

  // ------------------------------------------------------------------ the printed amount

  /** `rupees_in_words`, of an amount in paise. */
  function RupeesInWords(amount: int): seq<Token> {
    if amount < 0 then [Minus] + SizeInWords(-amount) else SizeInWords(amount)
  }

  /** Read rupees and paise: the paise are the one word before `Paise`. */
  function SizeOf(body: seq<Token>): int {
    var n := |body|;
    if n >= 4 && body[n - 2] == Paise then ValueOf(body[..n - 4]) * 100 + ValueOf([body[n - 3]])
    else ValueOf(body) * 100
  }

  /** Read a whole printed amount. */
  function AmountOf(words: seq<Token>): int {
    if |words| > 0 && words[0] == Minus then -SizeOf(words[1..]) else SizeOf(words)
  }

  lemma PaiseAreOneWord(value: nat)
    requires 0 < value < 100
    ensures |InWords(value)| == 1
  {
    SmallWords(value);
  }

  /** Words that say a number: some, and none of them Paise. */
  predicate Plain(words: seq<Token>) { |words| > 0 && Paise !in words }

  lemma GroupsHaveNoPaise(value: nat)
    requires value < 1000
    ensures Paise !in UnderThousand(value) && (value > 0 ==> |UnderThousand(value)| > 0)
  {
    assert Paise !in UnderHundred(value % 100);
    if value >= 100 {
      assert UnderThousand(value)[0] == Ones(value / 100);
    } else {
      assert UnderThousand(value) == UnderHundred(value);
    }
  }

  lemma ConcatIsPlain(a: seq<Token>, b: seq<Token>, c: seq<Token>, d: seq<Token>)
    requires Paise !in a && Paise !in b && Paise !in c && Paise !in d && |a| + |b| + |c| + |d| > 0
    ensures Plain(a + b + c + d)
  {
  }

  lemma {:induction false} WordsArePlain(value: nat)
    ensures Plain(InWords(value))
    decreases value
  {
    if value > 0 {
      if value >= CRORE { WordsArePlain(value / CRORE); }
      GroupsHaveNoPaise(LakhsIn(value));
      GroupsHaveNoPaise(ThousandsIn(value));
      GroupsHaveNoPaise(RestOf(value));
      Quotients(value, CRORE);
      Quotients(value % CRORE, LAKH);
      Quotients(value % CRORE % LAKH, THOUSAND);
      ConcatIsPlain(Crores(value), Group(LakhsIn(value), Lakh), Group(ThousandsIn(value), Thousand), UnderThousand(RestOf(value)));
    }
  }

  lemma WithRupees(words: seq<Token>)
    ensures ValueOf([Rupees] + words) == ValueOf(words) && ValueOf([Rupees] + words + [Only]) == ValueOf(words)
  {
    ReadInTwo(Reading(0, 0), [Rupees], words);
    ReadOne(Reading(0, 0), Rupees);
    ReadInTwo(Reading(0, 0), [Rupees] + words, [Only]);
    ReadOne(ReadAll(Reading(0, 0), [Rupees] + words), Only);
  }

  /** Rupees and paise without the sign. */
  function SizeInWords(size: nat): seq<Token> {
    [Rupees] + InWords(size / 100) + (if size % 100 != 0 then [And] + InWords(size % 100) + [Paise] else []) + [Only]
  }

  lemma PaiseRead(size: nat)
    requires size % 100 != 0
    ensures var body := SizeInWords(size); |body| > 0 && body[0] == Rupees && SizeOf(body) == size
  {
    var rupees, paise, body := InWords(size / 100), InWords(size % 100), SizeInWords(size);
    PaiseAreOneWord(size % 100);
    assert body == [Rupees] + rupees + [And] + paise + [Paise] + [Only];
    assert body[..|body| - 4] == [Rupees] + rupees && [body[|body| - 3]] == paise;
    WithRupees(rupees);
    WordsRoundTrip(size / 100);
    WordsRoundTrip(size % 100);
  }

  lemma WholeRupeesRead(size: nat)
    requires size % 100 == 0
    ensures var body := SizeInWords(size); |body| > 0 && body[0] == Rupees && SizeOf(body) == size
  {
    var rupees, body := InWords(size / 100), SizeInWords(size);
    WordsArePlain(size / 100);
    assert body == [Rupees] + rupees + [Only];
    assert body[|body| - 2] == rupees[|rupees| - 1];
    WithRupees(rupees);
    WordsRoundTrip(size / 100);
  }

  lemma SizesRoundTrip(size: nat)
    ensures var body := SizeInWords(size); |body| > 0 && body[0] == Rupees && SizeOf(body) == size
  {
    if size % 100 != 0 { PaiseRead(size); } else { WholeRupeesRead(size); }
  }

  lemma SignReads(body: seq<Token>)
    requires |body| > 0 && body[0] == Rupees
    ensures AmountOf(body) == SizeOf(body) && AmountOf([Minus] + body) == -SizeOf(body)
  {
    assert ([Minus] + body)[1..] == body;
  }

  /** The printed amount, sign, rupees and paise, says exactly what it was printed from. */
  lemma AmountsRoundTrip(amount: int)
    ensures AmountOf(RupeesInWords(amount)) == amount
  {
    SizesRoundTrip(if amount < 0 then -amount else amount);
    SignReads(SizeInWords(if amount < 0 then -amount else amount));
  }
}
