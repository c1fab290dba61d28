/** GeneratePassword: 16 characters, at least one of each class, in a shuffled order.
    The numbers drawn by `mustRand` are parameters. */
module Password {
  import opened Sequences
  import opened Shuffle

  const LOWER := "abcdefghjkmnpqrstuvwxyz"
  const UPPER := "ABCDEFGHJKMNPQRSTUVWXYZ"
  const DIGITS := "23456789"
  const SYMBOLS := "!@#$%&*?"
  const ALL := LOWER + UPPER + DIGITS + SYMBOLS
  const LENGTH := 16

  // ---- What a password is made of ----

  /** The letters without i, l and o, the digits without 0 and 1, and eight symbols. */
  predicate IsLower(c: char) {
    'a' <= c <= 'z' && c != 'i' && c != 'l' && c != 'o'
  }

  predicate IsUpper(c: char) {
    'A' <= c <= 'Z' && c != 'I' && c != 'L' && c != 'O'
  }

  predicate IsNumber(c: char) {
    '2' <= c <= '9'
  }

  predicate IsSymbol(c: char) {
    c in "!@#$%&*?"
  }

  predicate IsAllowed(c: char) {
    IsLower(c) || IsUpper(c) || IsNumber(c) || IsSymbol(c)
  }

  /** 16 characters, at least one of each class. */
  ghost predicate IsPassword(pw: string) {
    && |pw| == 16 && (forall i :: 0 <= i < 16 ==> IsAllowed(pw[i]))
    && (exists i :: 0 <= i < 16 && IsLower(pw[i]))
    && (exists i :: 0 <= i < 16 && IsUpper(pw[i]))
    && (exists i :: 0 <= i < 16 && IsNumber(pw[i]))
    && (exists i :: 0 <= i < 16 && IsSymbol(pw[i]))
  }

  lemma LowerIs(c: char)
    ensures c in LOWER <==> IsLower(c)
  {
  }

  lemma UpperIs(c: char)
    ensures c in UPPER <==> IsUpper(c)
  {
  }

  lemma NumberIs(c: char)
    ensures c in DIGITS <==> IsNumber(c)
  {
  }

  lemma AllowedIs(c: char)
    ensures c in ALL <==> IsAllowed(c)
  {
    LowerIs(c);
    UpperIs(c);
    NumberIs(c);
    assert ALL == LOWER + UPPER + DIGITS + SYMBOLS;
    assert c in LOWER + UPPER <==> c in LOWER || c in UPPER;
    assert c in LOWER + UPPER + DIGITS <==> c in LOWER + UPPER || c in DIGITS;
  }

  /** The place of a letter in an alphabet that starts at `first` and leaves out the letters i, l and o. */
  function LetterPlace(c: char, first: char): int {
    var n := c as int - first as int;
    if n < 8 then n else if n < 11 then n - 1 else if n < 14 then n - 2 else n - 3
  }

  function SymbolPlace(c: char): int {
    if c == '!' then 0 else if c == '@' then 1 else if c == '#' then 2 else if c == '$' then 3
    else if c == '%' then 4 else if c == '&' then 5 else if c == '*' then 6 else 7
  }

  /** The place of an allowed character in the list of all. */
  function Place(c: char): int {
    if IsLower(c) then LetterPlace(c, 'a')
    else if IsUpper(c) then 23 + LetterPlace(c, 'A')
    else if IsNumber(c) then 46 + (c as int - '2' as int)
    else 54 + SymbolPlace(c)
  }

  lemma LowerPlaces(i: nat)
    requires i < |LOWER|
    ensures |LOWER| == 23 && Place(LOWER[i]) == i
  {
  }

  lemma UpperPlaces(i: nat)
    requires i < |UPPER|
    ensures |UPPER| == 23 && Place(UPPER[i]) == 23 + i
  {
  }

  lemma OtherPlaces(i: nat)
    ensures |DIGITS| == |SYMBOLS| == 8
    ensures i < 8 ==> Place(DIGITS[i]) == 46 + i && Place(SYMBOLS[i]) == 54 + i
  {
  }

  ghost predicate InPlace(alphabet: string, first: nat) {
    forall i :: 0 <= i < |alphabet| ==> Place(alphabet[i]) == first + i
  }

  lemma InPlaceAppend(a: string, b: string, first: nat)
    requires InPlace(a, first) && InPlace(b, first + |a|)
    ensures InPlace(a + b, first)
  {
  }

  lemma AlphabetsAreInPlace()
    ensures InPlace(LOWER, 0) && InPlace(UPPER, 23) && InPlace(DIGITS, 46) && InPlace(SYMBOLS, 54)
    ensures |LOWER| == |UPPER| == 23 && |DIGITS| == |SYMBOLS| == 8
  {
    forall i: nat
      ensures i < 23 ==> Place(LOWER[i]) == i && Place(UPPER[i]) == 23 + i
      ensures i < 8 ==> Place(DIGITS[i]) == 46 + i && Place(SYMBOLS[i]) == 54 + i
    {
      if i < 23 {
        LowerPlaces(i);
        UpperPlaces(i);
      }
      OtherPlaces(i);
    }
  }

  /** No character is listed twice, so none is likelier than another of its alphabet. */
  lemma AlphabetsAreDistinct()
    ensures Distinct(LOWER) && Distinct(UPPER) && Distinct(DIGITS) && Distinct(SYMBOLS) && Distinct(ALL)
  {
    AlphabetsAreInPlace();
    InPlaceAppend(LOWER, UPPER, 0);
    InPlaceAppend(LOWER + UPPER, DIGITS, 0);
    InPlaceAppend(LOWER + UPPER + DIGITS, SYMBOLS, 0);
  }

  // ---- The generator ----

  /** The alphabet from which position `i` of the buffer is filled. */
  ghost function AlphabetAt(i: nat): string {
    if i == 0 then LOWER else if i == 1 then UPPER else if i == 2 then DIGITS else if i == 3 then SYMBOLS else ALL
  }

  ghost predicate ValidPicks(picks: seq<nat>) {
    |picks| == LENGTH && forall i :: 0 <= i < LENGTH ==> picks[i] < |AlphabetAt(i)|
  }

  /** The buffer before the shuffle. */
  ghost function Prepared(picks: seq<nat>): (r: string)
    requires ValidPicks(picks)
    ensures |r| == LENGTH
  {
    seq(LENGTH, i requires 0 <= i < LENGTH => AlphabetAt(i)[picks[i]])
  }

  method GeneratePassword(picks: seq<nat>, draws: seq<nat>) returns (pw: string)
    requires ValidPicks(picks) && ValidChoices(draws, LENGTH)
    ensures pw == Shuffled(Prepared(picks), draws)
    ensures |pw| == 16 && IsPassword(pw)
  {
    ghost var prepared := Prepared(picks);
    var chars := new char[LENGTH];
    chars[0] := LOWER[picks[0]];
    chars[1] := UPPER[picks[1]];
    chars[2] := DIGITS[picks[2]];
    chars[3] := SYMBOLS[picks[3]];
    for i := 4 to LENGTH
      invariant forall k :: 0 <= k < i ==> chars[k] == prepared[k]
    {
      chars[i] := ALL[picks[i]];
    }
    assert chars[..] == prepared;
    ShuffleInPlace(chars, draws);
    pw := chars[..];
    ShuffledIsPassword(picks, draws);
  }

  lemma MovedElement<T>(s: seq<T>, p: seq<T>, k: nat)
    requires k < |s| && multiset(p) == multiset(s)
    ensures exists i :: 0 <= i < |p| && p[i] == s[k]
  {
    assert s[k] in multiset(s);
    assert s[k] in multiset(p);
  }

  lemma PreparedClasses(picks: seq<nat>)
    requires ValidPicks(picks)
    ensures var s := Prepared(picks);
            && IsLower(s[0]) && IsUpper(s[1]) && IsNumber(s[2]) && IsSymbol(s[3])
            && forall i :: 0 <= i < |s| ==> IsAllowed(s[i])
  {
    var s := Prepared(picks);
    assert s[0] in LOWER && s[1] in UPPER && s[2] in DIGITS && s[3] in SYMBOLS;
    LowerIs(s[0]);
    UpperIs(s[1]);
    NumberIs(s[2]);
    forall i | 0 <= i < |s|
      ensures IsAllowed(s[i])
    {
      if i >= 4 {
        assert s[i] in ALL;
        AllowedIs(s[i]);
      }
    }
  }

  /** Whatever is drawn, the result is a password. */
  lemma ShuffledIsPassword(picks: seq<nat>, draws: seq<nat>)
    requires ValidPicks(picks) && ValidChoices(draws, LENGTH)
    ensures IsPassword(Shuffled(Prepared(picks), draws))
  {
    var s := Prepared(picks);
    var pw := Shuffled(s, draws);
    ShufflePermutes(s, draws);
    PreparedClasses(picks);
    MovedElement(s, pw, 0);
    MovedElement(s, pw, 1);
    MovedElement(s, pw, 2);
    MovedElement(s, pw, 3);
    forall i | 0 <= i < |pw|
      ensures IsAllowed(pw[i])
    {
      MovedElement(pw, s, i);
    }
  }

  // ---- Every password can come out ----

  /** The character at `u` of one arrangement, brought to place `k` of another whose first `k` differ from it. */
  lemma BroughtForward(pw: string, s: string, k: nat, u: nat) returns (t: string)
    requires k < |s| == |pw| && u < |pw| && multiset(s) == multiset(pw)
    requires forall i :: 0 <= i < k ==> s[i] != pw[u]
    ensures |t| == |s| && multiset(t) == multiset(pw) && t[k] == pw[u]
    ensures forall i :: 0 <= i < k ==> t[i] == s[i]
  {
    MovedElement(pw, s, u);
    var j :| 0 <= j < |s| && s[j] == pw[u];
    t := Swap(s, k, j);
    SwapPermutes(s, k, j);
  }

  /** Some arrangement of a password has a character of each class in the first four places, in order. */
  lemma Arranged(pw: string) returns (s: string)
    requires IsPassword(pw)
    ensures |s| == 16 && multiset(s) == multiset(pw)
    ensures IsLower(s[0]) && IsUpper(s[1]) && IsNumber(s[2]) && IsSymbol(s[3])
  {
    var a :| 0 <= a < 16 && IsLower(pw[a]);
    s := BroughtForward(pw, pw, 0, a);
    var b :| 0 <= b < 16 && IsUpper(pw[b]);
    s := BroughtForward(pw, s, 1, b);
    var c :| 0 <= c < 16 && IsNumber(pw[c]);
    s := BroughtForward(pw, s, 2, c);
    var d :| 0 <= d < 16 && IsSymbol(pw[d]);
    s := BroughtForward(pw, s, 3, d);
  }

  lemma IndexIn(alphabet: string, c: char) returns (k: nat)
    requires c in alphabet
    ensures k < |alphabet| && alphabet[k] == c
  {
    k :| 0 <= k < |alphabet| && alphabet[k] == c;
  }
  /** Number `k` picks the character at place `i`. */
  ghost predicate GoodPick(s: string, i: nat, k: nat)
    requires |s| == 16 && i < 16
  {
    k < |AlphabetAt(i)| && AlphabetAt(i)[k] == s[i]
  }

  lemma PickFor(s: string, i: nat) returns (k: nat)
    requires |s| == 16 && i < 16 && IsAllowed(s[i])
    requires IsLower(s[0]) && IsUpper(s[1]) && IsNumber(s[2]) && IsSymbol(s[3])
    ensures GoodPick(s, i, k)
  {
    LowerIs(s[i]);
    UpperIs(s[i]);
    NumberIs(s[i]);
    AllowedIs(s[i]);
    k := IndexIn(AlphabetAt(i), s[i]);
  }

  lemma PicksFor(s: string) returns (picks: seq<nat>)
    requires |s| == 16 && forall i :: 0 <= i < 16 ==> IsAllowed(s[i])
    requires IsLower(s[0]) && IsUpper(s[1]) && IsNumber(s[2]) && IsSymbol(s[3])
    ensures |picks| == 16 && forall i :: 0 <= i < 16 ==> GoodPick(s, i, picks[i])
  {
    picks := [];
    for n := 0 to 16
      invariant |picks| == n && forall i :: 0 <= i < n ==> GoodPick(s, i, picks[i])
    {
      var k := PickFor(s, n);
      picks := picks + [k];
    }
  }

  lemma PicksPrepare(s: string, picks: seq<nat>)
    requires |s| == |picks| == 16 && forall i :: 0 <= i < 16 ==> GoodPick(s, i, picks[i])
    ensures ValidPicks(picks) && Prepared(picks) == s
  {
    assert forall i :: 0 <= i < 16 ==> GoodPick(s, i, picks[i]) && picks[i] < |AlphabetAt(i)|;
  }

  lemma StillAllowed(pw: string, s: string)
    requires IsPassword(pw) && multiset(s) == multiset(pw)
    ensures forall i :: 0 <= i < |s| ==> IsAllowed(s[i])
  {
    forall i | 0 <= i < |s|
      ensures IsAllowed(s[i])
    {
      MovedElement(s, pw, i);
    }
  }

  /** Nothing is ruled out: every password comes out for some numbers drawn. */
  lemma EveryPasswordComesOut(pw: string) returns (picks: seq<nat>, draws: seq<nat>)
    requires IsPassword(pw)
    ensures ValidPicks(picks) && ValidChoices(draws, 16) && |Prepared(picks)| == 16
    ensures Shuffled(Prepared(picks), draws) == pw
  {
    var s := Arranged(pw);
    StillAllowed(pw, s);
    picks := PicksFor(s);
    PicksPrepare(s, picks);
    draws := ReachArrangement(s, pw, 15);
  }

  // ---- The shuffle moves positions, whatever characters stand there ----

  ghost predicate Within(at: seq<nat>, n: nat) {
    forall i :: 0 <= i < |at| ==> at[i] < n
  }

  ghost function Read(s: string, at: seq<nat>): string
    requires Within(at, |s|)
  {
    seq(|at|, i requires 0 <= i < |at| => s[at[i]])
  }

  lemma {:induction false} SwapsMovePositions(s: string, at: seq<nat>, cs: seq<nat>, i: nat)
    requires Within(at, |s|) && i < |at| && ValidChoices(cs, |at|)
    ensures Within(Swaps(at, cs, i), |s|)
    ensures Swaps(Read(s, at), cs, i) == Read(s, Swaps(at, cs, i))
    decreases i
  {
    if i > 0 {
      var next := Swap(at, i, cs[i]);
      assert Swap(Read(s, at), i, cs[i]) == Read(s, next);
      SwapsMovePositions(s, next, cs, i - 1);
    }
  }

  ghost function Positions(n: nat): (r: seq<nat>)
    ensures |r| == n && Distinct(r)
  {
    seq(n, i => i)
  }

  /** Characters may repeat, positions do not: for each of the 16! orders of the prepared
      positions there is exactly one sequence of draws, and it yields the password read in that order. */
  lemma EveryOrderExactlyOnce(picks: seq<nat>, order: seq<nat>)
    requires ValidPicks(picks) && multiset(order) == multiset(Positions(16))
    ensures |order| == |Prepared(picks)| == 16 && Within(order, 16)
    ensures exists cs :: ValidChoices(cs, 16) && Shuffled(Positions(16), cs) == order &&
                         Shuffled(Prepared(picks), cs) == Read(Prepared(picks), order)
    ensures forall c1, c2 | ValidChoices(c1, 16) && ValidChoices(c2, 16) ::
              Shuffled(Positions(16), c1) == order && Shuffled(Positions(16), c2) == order ==> c1 == c2
  {
    var at, s := Positions(LENGTH), Prepared(picks);
    ShuffleIsUnbiased(at, order);
    assert |order| == |multiset(order)| == |multiset(at)| == LENGTH;
    forall i | 0 <= i < |order|
      ensures order[i] < LENGTH
    {
      assert order[i] in multiset(order);
      assert order[i] in multiset(at);
    }
    var cs :| ValidChoices(cs, |at|) && Shuffled(at, cs) == order;
    SwapsMovePositions(s, at, cs, LENGTH - 1);
    assert Read(s, at) == s;
  }
}
