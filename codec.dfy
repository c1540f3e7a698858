/** The allocation codec: six amounts are stored in a string field as
    `','.join(str(a) for a in amounts)` and read back with
    `[int(x) for x in s.split(',')]`, either letting the ValueError escape
    or catching it and falling back to an empty list. */
module AllocationCodec {
  import opened Wrappers
  import opened GameConstants

  // ---------------------------------------------------------------------
  // Characters and numerals

  predicate IsDigit(c: char) { '0' <= c <= '9' }

  /** The ASCII characters Python's str.strip() and int() skip: space,
      tab, line feed, vertical tab, form feed, carriage return and the four
      separators 0x1c..0x1f. */
  predicate IsSpace(c: char) {
    c == ' ' || 9 <= c as int <= 13 || 0x1c <= c as int <= 0x1f
  }

  function DigitValue(c: char): (d: nat)
    requires IsDigit(c)
    ensures d < 10
  {
    (c as int) - ('0' as int)
  }

  function DigitChar(d: nat): (c: char)
    requires d < 10
    ensures IsDigit(c) && DigitValue(c) == d
  {
    (('0' as int) + d) as char
  }

  /** A non-empty run of decimal digits. */
  predicate IsNumeral(s: string) {
    |s| > 0 && forall i :: 0 <= i < |s| ==> IsDigit(s[i])
  }

  /** The value of a run of digits, most significant first. */
  function NumeralValue(s: string): nat
    requires forall i :: 0 <= i < |s| ==> IsDigit(s[i])
  {
    if s == [] then 0 else NumeralValue(s[..|s| - 1]) * 10 + DigitValue(s[|s| - 1])
  }

  /** Python's str(n) for n >= 0: decimal digits without leading zeros. */
  function NatToString(n: nat): (s: string)
    ensures IsNumeral(s)
    ensures s[0] == '0' ==> n == 0
  {
    if n < 10 then [DigitChar(n)] else NatToString(n / 10) + [DigitChar(n % 10)]
  }

  lemma {:induction false} NumeralValueOfNatToString(n: nat)
    ensures NumeralValue(NatToString(n)) == n
  {
    if n >= 10 {
      var s := NatToString(n);
      assert s[..|s| - 1] == NatToString(n / 10);
      NumeralValueOfNatToString(n / 10);
    }
  }

  /** str() and int() are inverse on numerals without leading zeros:
      the text written for a parsed amount is the text that was read. */
  lemma {:induction false} NatToStringOfNumeral(s: string)
    requires IsNumeral(s) && (s[0] == '0' ==> |s| == 1)
    ensures NatToString(NumeralValue(s)) == s
  {
    if |s| == 1 {
      assert s[..0] == [];
    } else {
      var init := s[..|s| - 1];
      assert IsNumeral(init) && init[0] == s[0];
      NatToStringOfNumeral(init);
      NumeralPositive(init);
      var n := NumeralValue(s);
      assert n / 10 == NumeralValue(init) && n % 10 == DigitValue(s[|s| - 1]);
      assert s == init + [s[|s| - 1]];
    }
  }

  lemma {:induction false} NumeralPositive(s: string)
    requires IsNumeral(s) && s[0] != '0'
    ensures NumeralValue(s) > 0
  {
    if |s| > 1 {
      var init := s[..|s| - 1];
      assert init[0] == s[0];
      NumeralPositive(init);
    }
  }

  // ---------------------------------------------------------------------
  // int(): surrounding whitespace, an optional sign, then digits

  function LStrip(s: string): (r: string)
    ensures |r| <= |s| && r == s[|s| - |r|..]
    ensures r == [] || !IsSpace(r[0])
    ensures forall k :: 0 <= k < |s| - |r| ==> IsSpace(s[k])
  {
    if s != [] && IsSpace(s[0]) then LStrip(s[1..]) else s
  }

  function RStrip(s: string): (r: string)
    ensures |r| <= |s| && r == s[..|r|]
    ensures r == [] || !IsSpace(r[|r| - 1])
    ensures forall k :: |r| <= k < |s| ==> IsSpace(s[k])
  {
    if s != [] && IsSpace(s[|s| - 1]) then RStrip(s[..|s| - 1]) else s
  }

  /** Python's str.strip() with no argument: the result neither starts nor
      ends with whitespace, and a string that already does neither is
      returned unchanged (so stripping twice is stripping once). */
  function Strip(s: string): (r: string)
    ensures |r| <= |s|
    ensures r == [] || (!IsSpace(r[0]) && !IsSpace(r[|r| - 1]))
    ensures (s == [] || (!IsSpace(s[0]) && !IsSpace(s[|s| - 1]))) ==> r == s
  {
    var t := LStrip(s);
    var r := RStrip(t);
    assert r != [] ==> r[0] == t[0];
    r
  }

  /** Strip removes exactly the outer whitespace: the result is the slice of
      s that starts after the leading run of whitespace and is followed only
      by whitespace. */
  lemma {:induction false} StripKeepsMiddle(s: string)
    ensures var i := |s| - |LStrip(s)|; var r := Strip(s);
      i + |r| <= |s| && r == s[i..i + |r|] &&
      (forall k :: 0 <= k < i ==> IsSpace(s[k])) &&
      (forall k :: i + |r| <= k < |s| ==> IsSpace(s[k]))
  {
  }

  /** Python's int(s) on a string; None where int() raises ValueError.
      int() skips surrounding whitespace itself, so `int(x)` and
      `int(x.strip())` are both this function. */
  function ParseInt(s: string): (r: Option<int>)
    ensures Strip(s) == [] ==> r == None
    ensures IsNumeral(Strip(s)) ==> r == Some(NumeralValue(Strip(s)))
    ensures r.Some? ==> |Strip(s)| > 0
    ensures r.Some? && r.value < 0 ==> Strip(s)[0] == '-'
    ensures r.Some? <==>
      (IsNumeral(Strip(s)) ||
       (|Strip(s)| >= 2 && (Strip(s)[0] == '+' || Strip(s)[0] == '-') && IsNumeral(Strip(s)[1..])))
    ensures r.Some? && !IsNumeral(Strip(s)) ==>
      r.value == (if Strip(s)[0] == '-' then -1 else 1) * NumeralValue(Strip(s)[1..])
  {
    var t := Strip(s);
    if |t| > 0 && (t[0] == '+' || t[0] == '-') then
      if IsNumeral(t[1..]) then
        var magnitude: int := NumeralValue(t[1..]);
        Some(if t[0] == '-' then -magnitude else magnitude)
      else None
    else if IsNumeral(t) then Some(NumeralValue(t))
    else None
  }

  /** `int(x.strip()) == int(x)`: stripping first changes nothing. */
  lemma ParseIntIgnoresStrip(s: string)
    ensures ParseInt(Strip(s)) == ParseInt(s)
  {
  }

  lemma ParseIntOfNatToString(n: nat)
    ensures ParseInt(NatToString(n)) == Some(n)
  {
    var s := NatToString(n);
    assert LStrip(s) == s;
    assert RStrip(s) == s;
    NumeralValueOfNatToString(n);
  }

  /** int('') raises: an empty token never parses. */
  lemma ParseIntEmpty()
    ensures ParseInt("") == None
  {
  }

  // ---------------------------------------------------------------------
  // str.split(',') and ','.join(...)

  /** Python's s.split(','): always at least one piece, one more than
      the number of commas. */
  function Split(s: string): (parts: seq<string>)
    ensures |parts| >= 1
    ensures |parts| == CommaCount(s) + 1
  {
    if s == [] then [[]]
    else
      var rest := Split(s[1..]);
      if s[0] == ',' then [[]] + rest else [[s[0]] + rest[0]] + rest[1..]
  }

  /** Python's ','.join(parts): the first piece comes first, and pieces
      without commas of their own are separated by exactly one comma each. */
  function Join(parts: seq<string>): (r: string)
    ensures |parts| >= 1 ==> parts[0] <= r
    ensures (|parts| >= 1 && forall i :: 0 <= i < |parts| ==> CommaFree(parts[i])) ==>
      CommaCount(r) == |parts| - 1
  {
    if |parts| == 0 then []
    else if |parts| == 1 then CommaFreeCount(parts[0]); parts[0]
    else
      var tail := Join(parts[1..]);
      CommaCountAppend(parts[0], [','] + tail);
      CommaCountAppend([','], tail);
      CommaFreeCount(parts[0]);
      var r := parts[0] + [','] + tail;
      assert r == parts[0] + ([','] + tail);
      assert r[..|parts[0]|] == parts[0];
      assert (forall i :: 0 <= i < |parts| ==> CommaFree(parts[i])) ==>
        (forall i :: 0 <= i < |parts[1..]| ==> CommaFree(parts[1..][i])) && CommaFree(parts[0]);
      r
  }

  /** The number of commas in s. */
  function CommaCount(s: string): nat {
    if s == [] then 0 else (if s[0] == ',' then 1 else 0) + CommaCount(s[1..])
  }

  lemma {:induction false} CommaCountAppend(a: string, b: string)
    ensures CommaCount(a + b) == CommaCount(a) + CommaCount(b)
  {
    if a != [] {
      assert (a + b)[0] == a[0];
      assert (a + b)[1..] == a[1..] + b;
      CommaCountAppend(a[1..], b);
    } else {
      assert a + b == b;
    }
  }

  predicate CommaFree(s: string) {
    forall i :: 0 <= i < |s| ==> s[i] != ','
  }

  lemma {:induction false} CommaFreeCount(s: string)
    ensures CommaFree(s) ==> CommaCount(s) == 0
  {
    if s != [] {
      assert CommaFree(s) ==> CommaFree(s[1..]);
      CommaFreeCount(s[1..]);
    }
  }

  lemma {:induction false} SplitCommaFreePrefix(w: string, t: string)
    requires CommaFree(w)
    ensures Split(w + t) == [w + Split(t)[0]] + Split(t)[1..]
  {
    if w != [] {
      assert (w + t)[1..] == w[1..] + t;
      SplitCommaFreePrefix(w[1..], t);
      assert [w[0]] + (w[1..] + Split(t)[0]) == w + Split(t)[0];
    } else {
      assert w + t == t;
      assert w + Split(t)[0] == Split(t)[0];
      assert Split(t) == [Split(t)[0]] + Split(t)[1..];
    }
  }

  /** Splitting what was joined gives back the pieces, provided none of
      them holds a comma. */
  lemma {:induction false} SplitJoin(parts: seq<string>)
    requires |parts| >= 1
    requires forall i :: 0 <= i < |parts| ==> CommaFree(parts[i])
    ensures Split(Join(parts)) == parts
  {
    if |parts| == 1 {
      SplitCommaFreePrefix(parts[0], []);
      assert Split([]) == [[]];
      assert parts[0] + [] == parts[0];
    } else {
      var tail := Join(parts[1..]);
      SplitJoin(parts[1..]);
      SplitCommaFreePrefix(parts[0], [','] + tail);
      assert ([','] + tail)[1..] == tail;
      assert Split([','] + tail) == [[]] + parts[1..];
      assert Join(parts) == parts[0] + ([','] + tail);
      assert parts[0] + [] == parts[0];
      assert parts == [parts[0]] + parts[1..];
    }
  }

  /** Joining what was split gives back the text. */
  lemma {:induction false} JoinSplit(s: string)
    ensures Join(Split(s)) == s
  {
    if s != [] {
      var rest := Split(s[1..]);
      JoinSplit(s[1..]);
      assert rest == [rest[0]] + rest[1..];
      if s[0] == ',' {
        assert ([[]] + rest)[1..] == rest;
      } else {
        var parts := [[s[0]] + rest[0]] + rest[1..];
        assert parts[1..] == rest[1..];
        if |rest| > 1 {
          assert Join(rest) == rest[0] + [','] + Join(rest[1..]);
        }
      }
    }
  }

  // ---------------------------------------------------------------------
  // The allocation field

  /** The text of each amount, in order. */
  function Numerals(amounts: seq<nat>): (strs: seq<string>)
    ensures |strs| == |amounts|
    ensures forall i :: 0 <= i < |amounts| ==> strs[i] == NatToString(amounts[i])
  {
    if amounts == [] then [] else [NatToString(amounts[0])] + Numerals(amounts[1..])
  }

  /** `','.join(str(a) for a in amounts)`: how a proposal or a defection
      is stored. */
  function Encode(amounts: seq<nat>): (s: string)
    ensures s == [] <==> amounts == []
    ensures |amounts| >= 1 ==> Split(s) == Numerals(amounts)
    ensures |amounts| >= 1 ==> CommaCount(s) == |amounts| - 1
  {
    var strs := Numerals(amounts);
    if amounts == [] then Join(strs)
    else
      NumeralsCommaFree(amounts);
      SplitJoin(strs);
      Join(strs)
  }

  /** A decimal numeral holds no comma. */
  lemma NumeralsCommaFree(amounts: seq<nat>)
    ensures forall i :: 0 <= i < |amounts| ==> CommaFree(Numerals(amounts)[i])
  {
    var strs := Numerals(amounts);
    forall i | 0 <= i < |strs| ensures CommaFree(strs[i]) {
      assert IsNumeral(strs[i]);
    }
  }

  /** Every token is something int() accepts. */
  predicate AllParse(tokens: seq<string>) {
    forall i :: 0 <= i < |tokens| ==> ParseInt(tokens[i]).Some?
  }

  /** values holds int() of each token, in order. */
  predicate ParsedAs(tokens: seq<string>, values: seq<int>) {
    |values| == |tokens| && forall i :: 0 <= i < |tokens| ==> Some(values[i]) == ParseInt(tokens[i])
  }

  /** `[int(x) for x in tokens]`; None where some int() raises. */
  function ParseAll(tokens: seq<string>): (r: Option<seq<int>>)
    ensures r.Some? <==> AllParse(tokens)
    ensures r.Some? ==> ParsedAs(tokens, r.value)
  {
    if tokens == [] then Some([])
    else match (ParseInt(tokens[0]), ParseAll(tokens[1..]))
      case (Some(x), Some(xs)) => Some([x] + xs)
      case _ => None
  }

  /** `[int(x) for x in s.split(',')]`; None where that raises ValueError. */
  function ParseAmounts(s: string): (r: Option<seq<int>>)
    ensures r.Some? <==> AllParse(Split(s))
    ensures r.Some? ==> ParsedAs(Split(s), r.value)
  {
    ParseAll(Split(s))
  }

  lemma {:induction false} ParseAllNumerals(amounts: seq<nat>)
    ensures ParseAll(Numerals(amounts)) == Some(amounts)
  {
    if amounts != [] {
      assert Numerals(amounts)[1..] == Numerals(amounts[1..]);
      ParseIntOfNatToString(amounts[0]);
      ParseAllNumerals(amounts[1..]);
      assert [amounts[0]] + amounts[1..] == amounts;
    }
  }

  /** Decoding an encoded allocation gives back the amounts: the round
      trip between the before_next_page writers and every reader. */
  lemma EncodeRoundTrip(amounts: seq<nat>)
    requires |amounts| >= 1
    ensures ParseAmounts(Encode(amounts)) == Some(amounts)
  {
    ParseAllNumerals(amounts);
  }

  /** The empty allocation encodes to '' and '' does not decode, because
      ''.split(',') is [''] and int('') raises. */
  lemma EmptyDoesNotRoundTrip()
    ensures Encode([]) == ""
    ensures ParseAmounts("") == None
  {
    ParseIntEmpty();
  }

  /** `{i + 1: amount for i, amount in enumerate(amounts)}`. */
  function SlotMap(amounts: seq<int>): (m: map<int, int>)
    ensures forall k :: k in m <==> 1 <= k <= |amounts|
    ensures forall k :: 1 <= k <= |amounts| ==> m[k] == amounts[k - 1]
  {
    if amounts == [] then map[]
    else SlotMap(amounts[..|amounts| - 1])[|amounts| := amounts[|amounts| - 1]]
  }

  /** Group.get_allocation_dict: the proposal as a 1-based slot map; the
      ValueError of a bad token and the AttributeError of an unset field
      escape. It succeeds exactly when the guarded reader would find amounts,
      and then maps key i + 1 to the i-th of them. */
  function AllocationDict(proposerAllocation: Option<string>): (r: Outcome<map<int, int>>)
    ensures proposerAllocation.None? ==> r == Raises(AttributeError)
    ensures proposerAllocation.Some? ==>
      (r.Ok? <==> ParseAmounts(proposerAllocation.value).Some?)
    ensures proposerAllocation.Some? && r.Raises? ==> r.error == ValueError
    ensures r.Ok? ==>
      var amounts := SafeAmounts(proposerAllocation);
      (forall k :: k in r.value <==> 1 <= k <= |amounts|) &&
      (forall k :: 1 <= k <= |amounts| ==> r.value[k] == amounts[k - 1])
  {
    if proposerAllocation.None? then Raises(AttributeError)
    else match ParseAmounts(proposerAllocation.value)
      case None => Raises(ValueError)
      case Some(amounts) => Ok(SlotMap(amounts))
  }

  /** get_allocation_dict of a stored proposal maps key i + 1 to the i-th
      amount, for every slot and no other key. */
  lemma AllocationDictOfEncoded(amounts: seq<nat>)
    requires |amounts| == PlayersPerGroup
    ensures AllocationDict(Some(Encode(amounts))).Ok?
    ensures var m := AllocationDict(Some(Encode(amounts))).value;
      (forall k :: k in m <==> 1 <= k <= PlayersPerGroup) &&
      (forall k :: 1 <= k <= PlayersPerGroup ==> m[k] == amounts[k - 1])
  {
    var stored := Some(Encode(amounts));
    EncodeRoundTrip(amounts);
    assert SafeAmounts(stored) == amounts;
    var r := AllocationDict(stored);
    assert r.Ok?;
  }

  /** The guarded reader of Voting and Defection: '' or None gives [],
      a token int() rejects gives [] too, otherwise the amounts. */
  function SafeAmounts(allocation: Option<string>): (r: seq<int>)
    ensures allocation.None? || allocation == Some("") ==> r == []
    ensures allocation.Some? && ParseAmounts(allocation.value).None? ==> r == []
    ensures allocation.Some? && ParseAmounts(allocation.value).Some? ==>
      r == ParseAmounts(allocation.value).value
  {
    if allocation.None? || allocation.value == "" then []
    else match ParseAmounts(allocation.value)
      case None => []
      case Some(amounts) => amounts
  }

  /** The guarded reader never loses a stored allocation. */
  lemma SafeAmountsOfEncoded(amounts: seq<nat>)
    requires |amounts| >= 1
    ensures SafeAmounts(Some(Encode(amounts))) == amounts
  {
    EncodeRoundTrip(amounts);
  }

  /** The slot map Voting shows (never raises). */
  function VotingAllocationDict(proposerAllocation: Option<string>): (m: map<int, int>)
    ensures proposerAllocation.None? ==> m == map[]
    ensures var amounts := SafeAmounts(proposerAllocation);
      (forall k :: k in m <==> 1 <= k <= |amounts|) &&
      (forall k :: 1 <= k <= |amounts| ==> m[k] == amounts[k - 1])
  {
    var amounts := SafeAmounts(proposerAllocation);
    SlotMap(amounts)
  }

  /** Player.allocation_display: the (id, amount) pairs of the six players,
      [] for an unset, empty or unparsable field; IndexError (not caught)
      when the field parses to fewer than six amounts. */
  function AllocationDisplay(allocation: Option<string>): (r: Outcome<seq<(int, int)>>)
    ensures allocation.None? || allocation == Some("") ==> r == Ok([])
    ensures allocation.Some? && ParseAmounts(allocation.value).None? ==> r == Ok([])
    ensures r.Raises? ==> r.error == IndexError
    ensures r.Raises? <==>
      allocation.Some? && allocation.value != "" && ParseAmounts(allocation.value).Some? &&
      |ParseAmounts(allocation.value).value| < PlayersPerGroup
    ensures (allocation.Some? && allocation.value != "" && ParseAmounts(allocation.value).Some? &&
             |ParseAmounts(allocation.value).value| >= PlayersPerGroup) ==>
      r.Ok? && |r.value| == PlayersPerGroup
    ensures r.Ok? && r.value != [] ==>
      var amounts := SafeAmounts(allocation);
      |amounts| >= PlayersPerGroup && |r.value| == PlayersPerGroup &&
      forall i :: 0 <= i < PlayersPerGroup ==> r.value[i] == (i + 1, amounts[i])
  {
    if allocation.None? || allocation.value == "" then Ok([])
    else match ParseAmounts(allocation.value)
      case None => Ok([])
      case Some(amounts) =>
        if |amounts| < PlayersPerGroup then Raises(IndexError)
        else Ok(IdPairs(amounts))
  }

  /** `[(p.id_in_group, amounts[p.id_in_group - 1]) for p in players]` over
      the six members in id order. */
  function IdPairs(amounts: seq<int>): (pairs: seq<(int, int)>)
    requires |amounts| >= PlayersPerGroup
    ensures |pairs| == PlayersPerGroup
    ensures forall i :: 0 <= i < PlayersPerGroup ==> pairs[i] == (i + 1, amounts[i])
  {
    seq(PlayersPerGroup, i requires 0 <= i < PlayersPerGroup => (i + 1, amounts[i]))
  }

  lemma AllocationDisplayOfEncoded(amounts: seq<nat>)
    requires |amounts| == PlayersPerGroup
    ensures AllocationDisplay(Some(Encode(amounts))).Ok?
    ensures var pairs := AllocationDisplay(Some(Encode(amounts))).value;
      |pairs| == PlayersPerGroup &&
      forall i :: 0 <= i < PlayersPerGroup ==> pairs[i] == (i + 1, amounts[i] as int)
  {
    EncodeRoundTrip(amounts);
  }

  /** Player.proposed_amount: 0 while there is no proposal, otherwise the
      player's slot; a bad token (ValueError) or a short list (IndexError)
      is not caught. */
  function ProposedAmount(proposerAllocation: Option<string>, idInGroup: int): (r: Outcome<int>)
    requires 1 <= idInGroup
    ensures proposerAllocation.None? || proposerAllocation == Some("") ==> r == Ok(0)
    ensures r.Ok? <==>
      proposerAllocation.None? || proposerAllocation == Some("") ||
      (ParseAmounts(proposerAllocation.value).Some? &&
       idInGroup <= |ParseAmounts(proposerAllocation.value).value|)
    ensures r.Raises? && ParseAmounts(proposerAllocation.value).None? ==> r.error == ValueError
    ensures r.Raises? && ParseAmounts(proposerAllocation.value).Some? ==> r.error == IndexError
    ensures r.Ok? && proposerAllocation.Some? && proposerAllocation.value != "" ==>
      idInGroup <= |SafeAmounts(proposerAllocation)| &&
      r.value == SafeAmounts(proposerAllocation)[idInGroup - 1]
  {
    if proposerAllocation.None? || proposerAllocation.value == "" then Ok(0)
    else match ParseAmounts(proposerAllocation.value)
      case None => Raises(ValueError)
      case Some(amounts) =>
        if idInGroup - 1 < |amounts| then Ok(amounts[idInGroup - 1]) else Raises(IndexError)
  }

  lemma ProposedAmountOfEncoded(amounts: seq<nat>, idInGroup: int)
    requires |amounts| == PlayersPerGroup && 1 <= idInGroup <= PlayersPerGroup
    ensures ProposedAmount(Some(Encode(amounts)), idInGroup) == Ok(amounts[idInGroup - 1] as int)
  {
    EncodeRoundTrip(amounts);
  }
}
