/**
 * The year of an electronic case number, as the bulk import takes it: the four
 * digits of the leftmost match of the regular expression `\.(\d{4})\.` (a dot,
 * four digits, a dot), read as an integer, or 0 when the number has no such
 * part. In the usual `NNNNNNN-DD.AAAA.J.TR.OOOO` numbering that is `AAAA`.
 */
module CaseNumber {
  import opened Wrappers
  import opened Text

  /** A dot, four digits and a dot start at position `i`. */
  predicate DottedYearAt(s: string, i: nat) {
    i + 6 <= |s| && s[i] == '.' && AllDigits(s[i + 1..i + 5]) && s[i + 5] == '.'
  }

  /** The leftmost position at or after `from` where a dotted year starts, as the regex search scans. */
  function FirstDottedYear(s: string, from: nat): (r: Option<nat>)
    requires from <= |s|
    ensures r.Some? ==> from <= r.value && DottedYearAt(s, r.value)
    ensures r.Some? ==> forall j: nat :: from <= j < r.value ==> !DottedYearAt(s, j)
    ensures r.None? ==> forall j: nat :: from <= j ==> !DottedYearAt(s, j)
    decreases |s| - from
  {
    if from + 6 > |s| then None
    else if DottedYearAt(s, from) then Some(from)
    else FirstDottedYear(s, from + 1)
  }

  /**
   * `ano` in the bulk import: the value of the four digits of the leftmost dotted
   * year, or 0 when there is none.
   */
  function AnoDoNumero(numEletronico: string): (ano: nat)
    ensures ano <= 9999
  {
    match FirstDottedYear(numEletronico, 0)
    case None => 0
    case Some(i) => FourDigitValue(numEletronico[i + 1..i + 5])
  }

  /**
   * The year is read from the leftmost dotted year, as `re.search` finds it, and
   * is 0 exactly when the regular expression finds nothing.
   */
  lemma AnoDoNumeroIsLeftmostMatch(numEletronico: string)
    ensures forall i: nat :: DottedYearAt(numEletronico, i)
                        && (forall j: nat :: j < i ==> !DottedYearAt(numEletronico, j))
                        ==> AnoDoNumero(numEletronico) == FourDigitValue(numEletronico[i + 1..i + 5])
    ensures (forall i: nat :: !DottedYearAt(numEletronico, i)) ==> AnoDoNumero(numEletronico) == 0
  {
    match FirstDottedYear(numEletronico, 0)
    case None =>
    case Some(i) =>
  }

  /**
   * When no dot comes before it, the first dotted year in the number is the one
   * read: `AnoDoNumero("1500123-45.2023.8.26.0050") == 2023`.
   */
  lemma {:induction false} AnoDoNumeroAfterDotFreePrefix(prefix: string, year: string, rest: string)
    requires '.' !in prefix
    requires |year| == 4 && AllDigits(year)
    ensures AnoDoNumero(prefix + "." + year + "." + rest) == FourDigitValue(year)
  {
    var s := prefix + "." + year + "." + rest;
    var i := |prefix|;
    assert s[i + 1..i + 5] == year;
    assert DottedYearAt(s, i);
    forall j | 0 <= j < i ensures !DottedYearAt(s, j) {
      assert s[j] == prefix[j];
    }
    AnoDoNumeroIsLeftmostMatch(s);
  }

  lemma AnoDoNumeroOfCnjNumber(s: string)
    requires s == "1500123-45.2023.8.26.0050"
    ensures AnoDoNumero(s) == 2023
  {
    assert s == "1500123-45" + "." + "2023" + "." + "8.26.0050";
    AnoDoNumeroAfterDotFreePrefix("1500123-45", "2023", "8.26.0050");
  }

  /** A number without any dot, such as `ABC-123`, has no dotted year and gets the year 0. */
  lemma AnoDoNumeroWithoutDots(s: string)
    requires '.' !in s
    ensures AnoDoNumero(s) == 0
  {
    forall i: nat ensures !DottedYearAt(s, i) {
      if i < |s| { assert s[i] != '.'; }
    }
    AnoDoNumeroIsLeftmostMatch(s);
  }
}
