/**
 * `parseTimeframe` of the language service: lower-case the text, look for
 * `(\d+)\s*days?`, `(\d+)\s*weeks?` and `(\d+)\s*months?`, and turn the first
 * pattern that matches, in that order, into a number of days.
 */
module Timeframe {
  import opened Wrappers
  import opened JsText

  /**
   * The regular expression `(\d+)\s*<unit>` matches `t` starting at `p`.
   * `\d+` and `\s*` are greedy and giving characters back cannot help (a
   * shorter digit run is followed by a digit, a shorter space run by a
   * space), so the match exists exactly when the whole digit run, then the
   * whole space run, is followed by `unit`. The optional trailing `s` of
   * `days?`, `weeks?` and `months?` changes neither whether they match nor
   * the group.
   */
  predicate MatchesAt(t: string, p: nat, unit: string) {
    && p < |t| && IsDigit(t[p])
    && var r := SpaceEnd(t, DigitEnd(t, p));
       unit <= t[r..]
  }

  /** Where the run of `\d` characters starting at `p` ends. */
  function DigitEnd(t: string, p: nat): (q: nat)
    requires p <= |t|
    ensures p <= q <= |t| && (forall i :: p <= i < q ==> IsDigit(t[i])) && (q < |t| ==> !IsDigit(t[q]))
    decreases |t| - p
  {
    if p < |t| && IsDigit(t[p]) then DigitEnd(t, p + 1) else p
  }

  /** Where the run of `\s` characters starting at `p` ends. */
  function SpaceEnd(t: string, p: nat): (q: nat)
    requires p <= |t|
    ensures p <= q <= |t| && (forall i :: p <= i < q ==> IsSpace(t[i])) && (q < |t| ==> !IsSpace(t[q]))
    decreases |t| - p
  {
    if p < |t| && IsSpace(t[p]) then SpaceEnd(t, p + 1) else p
  }

  /** The captured group `(\d+)` of a match at `p`: the whole digit run. */
  function Group(t: string, p: nat): (g: string)
    requires p <= |t|
    ensures AllDigits(g)
  {
    t[p..DigitEnd(t, p)]
  }

  /** A run of digits from `p` to `q` followed by a non-digit ends at `q`. */
  lemma {:induction false} DigitEndIs(t: string, p: nat, q: nat)
    requires p <= q <= |t|
    requires forall i :: p <= i < q ==> IsDigit(t[i])
    requires q < |t| ==> !IsDigit(t[q])
    ensures DigitEnd(t, p) == q
    decreases q - p
  {
    if p < q {
      DigitEndIs(t, p + 1, q);
    }
  }

  /** A run of white space from `p` to `q` followed by something else ends at `q`. */
  lemma {:induction false} SpaceEndIs(t: string, p: nat, q: nat)
    requires p <= q <= |t|
    requires forall i :: p <= i < q ==> IsSpace(t[i])
    requires q < |t| ==> !IsSpace(t[q])
    ensures SpaceEnd(t, p) == q
    decreases q - p
  {
    if p < q {
      SpaceEndIs(t, p + 1, q);
    }
  }

  /**
   * `t.match(/(\d+)\s*<unit>/)` with its group converted by `parseInt`,
   * looking only at matches that start at `p` or later: the leftmost match
   * wins.
   */
  function FirstMatch(t: string, unit: string, p: nat): Option<nat>
    decreases |t| - p
  {
    if p >= |t| then None
    else if MatchesAt(t, p, unit) then Some(DecimalValue(Group(t, p)))
    else FirstMatch(t, unit, p + 1)
  }

  /** Some match of `(\d+)\s*<unit>` in `t` has a group that, times `factor`, is `r`. */
  ghost predicate FromMatch(t: string, unit: string, factor: nat, r: nat) {
    exists p: nat :: MatchesAt(t, p, unit) && r == factor * DecimalValue(Group(t, p))
  }

  ghost predicate HasMatch(t: string, unit: string) {
    exists p: nat :: MatchesAt(t, p, unit)
  }

  /**
   * `parseTimeframe(text)`: days over weeks over months, 7 days by default.
   * The result is read off a match of the lower-cased text, or is the
   * default; a day phrase anywhere outranks any week phrase, and a week
   * phrase any month phrase.
   */
  function ParseTimeframe(text: string): (r: nat)
    ensures var t := Lower(text);
      r == 7 || FromMatch(t, "day", 1, r) || FromMatch(t, "week", 7, r) || FromMatch(t, "month", 30, r)
    ensures HasMatch(Lower(text), "day") ==> FromMatch(Lower(text), "day", 1, r)
    ensures !HasMatch(Lower(text), "day") && HasMatch(Lower(text), "week") ==> FromMatch(Lower(text), "week", 7, r)
    ensures !HasMatch(Lower(text), "day") && !HasMatch(Lower(text), "week") && HasMatch(Lower(text), "month") ==>
      FromMatch(Lower(text), "month", 30, r)
    ensures !HasMatch(Lower(text), "day") && !HasMatch(Lower(text), "week") && !HasMatch(Lower(text), "month") ==> r == 7
  {
    var t := Lower(text);
    FirstMatchIsLeftmost(t, "day", 0);
    FirstMatchIsLeftmost(t, "week", 0);
    FirstMatchIsLeftmost(t, "month", 0);
    DaysOfLowered(t)
  }

  /** The three patterns, in order, on text already lower-cased. */
  function DaysOfLowered(t: string): nat {
    match FirstMatch(t, "day", 0)
    case Some(n) => n
    case None =>
      match FirstMatch(t, "week", 0)
      case Some(n) => 7 * n
      case None =>
        match FirstMatch(t, "month", 0)
        case Some(n) => 30 * n
        case None => 7
  }

  /** `FirstMatch` finds the leftmost match, and finds none only when there is none. */
  lemma FirstMatchIsLeftmost(t: string, unit: string, p: nat)
    ensures FirstMatch(t, unit, p).None? <==> forall q :: p <= q < |t| ==> !MatchesAt(t, q, unit)
    ensures FirstMatch(t, unit, p).Some? ==>
      exists q :: p <= q < |t| && MatchesAt(t, q, unit)
               && (forall q' :: p <= q' < q ==> !MatchesAt(t, q', unit))
               && FirstMatch(t, unit, p).value == DecimalValue(Group(t, q))
  {
    FirstMatchNone(t, unit, p);
    if FirstMatch(t, unit, p).Some? {
      var q := FirstMatchAt(t, unit, p);
    }
  }

  lemma {:induction false} FirstMatchNone(t: string, unit: string, p: nat)
    ensures FirstMatch(t, unit, p).None? <==> forall q :: p <= q < |t| ==> !MatchesAt(t, q, unit)
    decreases |t| - p
  {
    if p < |t| {
      if MatchesAt(t, p, unit) {
        assert FirstMatch(t, unit, p).Some?;
      } else {
        FirstMatchNone(t, unit, p + 1);
        assert FirstMatch(t, unit, p) == FirstMatch(t, unit, p + 1);
      }
    }
  }

  /** The position of the match `FirstMatch` reports. */
  lemma {:induction false} FirstMatchAt(t: string, unit: string, p: nat) returns (q: nat)
    requires FirstMatch(t, unit, p).Some?
    ensures p <= q < |t| && MatchesAt(t, q, unit)
    ensures forall q' :: p <= q' < q ==> !MatchesAt(t, q', unit)
    ensures FirstMatch(t, unit, p).value == DecimalValue(Group(t, q))
    decreases |t| - p
  {
    if MatchesAt(t, p, unit) {
      q := p;
    } else {
      q := FirstMatchAt(t, unit, p + 1);
    }
  }

  /**
   * When `t` reads `pre + digits + spaces + unit + rest` and no match starts
   * inside `pre`, the first match is the one right after `pre`, and its
   * group is `digits`.
   */
  lemma MatchAfter(t: string, pre: string, digits: string, spaces: string, unit: string, rest: string)
    requires t == pre + digits + spaces + unit + rest
    requires digits != [] && AllDigits(digits) && AllSpaces(spaces)
    requires unit != [] && !IsDigit(unit[0]) && !IsSpace(unit[0])
    requires forall p :: 0 <= p < |pre| ==> !MatchesAt(t, p, unit)
    ensures FirstMatch(t, unit, 0) == Some(DecimalValue(digits))
  {
    var p := |pre|;
    var q := p + |digits|;
    var r := q + |spaces|;
    assert forall i :: p <= i < q ==> t[i] == digits[i - p];
    assert q < |t| && t[q] == if spaces == [] then unit[0] else spaces[0];
    DigitEndIs(t, p, q);
    assert forall i :: q <= i < r ==> t[i] == spaces[i - q];
    assert r < |t| && t[r] == unit[0];
    SpaceEndIs(t, q, r);
    assert t[r..] == unit + rest;
    assert t[p..q] == digits;
    FirstMatchSkips(t, unit, 0, p);
  }

  lemma {:induction false} FirstMatchSkips(t: string, unit: string, p: nat, p': nat)
    requires p <= p' <= |t|
    requires forall q :: p <= q < p' ==> !MatchesAt(t, q, unit)
    ensures FirstMatch(t, unit, p) == FirstMatch(t, unit, p')
    decreases p' - p
  {
    if p < p' {
      FirstMatchSkips(t, unit, p + 1, p');
    }
  }

  /**
   * "N day" or "N days" (any case, any `\s` run between) gives N, whatever
   * week or month pattern the text also holds, provided no earlier day
   * pattern precedes it.
   */
  lemma DaysPattern(text: string, pre: string, digits: string, spaces: string, rest: string)
    requires Lower(text) == pre + digits + spaces + "day" + rest
    requires digits != [] && AllDigits(digits) && AllSpaces(spaces)
    requires forall p :: 0 <= p < |pre| ==> !MatchesAt(Lower(text), p, "day")
    ensures ParseTimeframe(text) == DecimalValue(digits)
  {
    MatchAfter(Lower(text), pre, digits, spaces, "day", rest);
  }

  /** With no day pattern anywhere, the first "N week(s)" gives 7 * N. */
  lemma WeeksPattern(text: string, pre: string, digits: string, spaces: string, rest: string)
    requires Lower(text) == pre + digits + spaces + "week" + rest
    requires digits != [] && AllDigits(digits) && AllSpaces(spaces)
    requires forall p :: 0 <= p < |pre| ==> !MatchesAt(Lower(text), p, "week")
    requires forall p :: 0 <= p < |text| ==> !MatchesAt(Lower(text), p, "day")
    ensures ParseTimeframe(text) == 7 * DecimalValue(digits)
  {
    FirstMatchIsLeftmost(Lower(text), "day", 0);
    MatchAfter(Lower(text), pre, digits, spaces, "week", rest);
  }

  /** With neither a day nor a week pattern, the first "N month(s)" gives 30 * N. */
  lemma MonthsPattern(text: string, pre: string, digits: string, spaces: string, rest: string)
    requires Lower(text) == pre + digits + spaces + "month" + rest
    requires digits != [] && AllDigits(digits) && AllSpaces(spaces)
    requires forall p :: 0 <= p < |pre| ==> !MatchesAt(Lower(text), p, "month")
    requires forall p :: 0 <= p < |text| ==> !MatchesAt(Lower(text), p, "day") && !MatchesAt(Lower(text), p, "week")
    ensures ParseTimeframe(text) == 30 * DecimalValue(digits)
  {
    FirstMatchIsLeftmost(Lower(text), "day", 0);
    FirstMatchIsLeftmost(Lower(text), "week", 0);
    MatchAfter(Lower(text), pre, digits, spaces, "month", rest);
  }

  /** Text that matches none of the three patterns gives the default, 7. */
  lemma DefaultSevenDays(text: string)
    requires forall p :: 0 <= p < |text| ==>
      !MatchesAt(Lower(text), p, "day") && !MatchesAt(Lower(text), p, "week") && !MatchesAt(Lower(text), p, "month")
    ensures ParseTimeframe(text) == 7
  {
    FirstMatchIsLeftmost(Lower(text), "day", 0);
    FirstMatchIsLeftmost(Lower(text), "week", 0);
    FirstMatchIsLeftmost(Lower(text), "month", 0);
  }

  /** In particular, a timeframe without any digit gives 7, whatever else it says. */
  lemma DigitlessSevenDays(text: string)
    ensures (forall i :: 0 <= i < |text| ==> !IsDigit(text[i])) ==> ParseTimeframe(text) == 7
  {
    if forall i :: 0 <= i < |text| ==> !IsDigit(text[i]) {
      DefaultSevenDays(text);
    }
  }

  /** The text is lower-cased first, so its case does not matter. */
  lemma CaseInsensitive(text: string)
    ensures ParseTimeframe(text) == ParseTimeframe(Lower(text))
  {
    LowerIdempotent(text);
  }

  /** Days take precedence over weeks: "2 weeks 3 days" is 3 days. */
  lemma DaysOverWeeksExample()
    ensures ParseTimeframe("2 weeks 3 days") == 3
  {
    var text := "2 weeks 3 days";
    var pre := "2 weeks ";
    LowerOfLowerCase(text);
    assert text == pre + "3" + " " + "day" + "s";
    NoDayMatchIn(text, |pre|);
    assert DecimalValue("3") == 3;
    DaysPattern(text, pre, "3", " ", "s");
  }

  lemma NoDayMatchIn(text: string, n: nat)
    requires text == "2 weeks 3 days" && n == 8
    ensures forall p :: 0 <= p < n ==> !MatchesAt(text, p, "day")
  {
    DigitEndIs(text, 0, 1);
    SpaceEndIs(text, 1, 2);
    assert text[2] == 'w';
    forall p | 1 <= p < n
      ensures !IsDigit(text[p])
    {
    }
  }
}
