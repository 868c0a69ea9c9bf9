/** Candidate tracking numbers and the `created_at` text, as computed by
    `create_tracking_number`, `generate_tracking_number` and
    `generate_alternate_tracking_number` in trackingnum/utils.py. */
module TrackingNumbers {
  import opened PyText

  /** `TrackingNumber.tracking_number` is a `CharField(max_length=16)`, and the
      generator truncates to the same width. */
  const TrackingNumberLength := 16
  /** Characters of the dash-stripped customer id that are kept. */
  const CustomerPartLength := 12

  /** The customer part: dashes removed, first 12 characters, upper-cased. */
  function CustomerPart(customerId: string): string
  {
    Upper(Take(Without(customerId, '-'), CustomerPartLength))
  }

  lemma CustomerPartShape(customerId: string)
    ensures var r := CustomerPart(customerId);
            var stripped := Without(customerId, '-');
            && '-' !in r
            && |r| == Min(CustomerPartLength, |stripped|)
            && r == Upper(stripped)[..|r|]
  {
    var stripped := Without(customerId, '-');
    var kept := Take(stripped, CustomerPartLength);
    var r := Upper(kept);
    forall i | 0 <= i < |kept| ensures kept[i] != '-' {
      assert kept[i] == stripped[i] && stripped[i] in stripped;
    }
    assert forall i :: 0 <= i < |r| ==> r[i] != '-';
    UpperTake(stripped, CustomerPartLength);
  }

  /** The three normalised inputs of the generator. */
  datatype Parts = Parts(origin: string, destination: string, customer: string)

  /** The normalisation `create_tracking_number` applies before generating. */
  function PartsOf(originCountryId: string, destinationCountryId: string, customerId: string): Parts
  {
    Parts(Upper(originCountryId), Upper(destinationCountryId), CustomerPart(customerId))
  }

  /** The base candidate: the concatenation cut to 16 characters. */
  function GenerateTrackingNumber(originPart: string, destinationPart: string, customerIdPart: string): (r: string)
    ensures r <= originPart + destinationPart + customerIdPart
    ensures |r| == Min(TrackingNumberLength, |originPart| + |destinationPart| + |customerIdPart|)
  {
    Take(originPart + destinationPart + customerIdPart, TrackingNumberLength)
  }

  /** The alternate candidate: the base with its tail replaced by `str(attempt)`. */
  function GenerateAlternateTrackingNumber(originPart: string, destinationPart: string,
                                           customerIdPart: string, attempt: nat): string
  {
    var base := GenerateTrackingNumber(originPart, destinationPart, customerIdPart);
    Take(base, TrackingNumberLength - |Decimal(attempt)|) + Decimal(attempt)
  }

  lemma AlternateShape(originPart: string, destinationPart: string, customerIdPart: string, attempt: nat)
    ensures var base := GenerateTrackingNumber(originPart, destinationPart, customerIdPart);
            var r := GenerateAlternateTrackingNumber(originPart, destinationPart, customerIdPart, attempt);
            var suffix := Decimal(attempt);
            var kept := |r| - |suffix|;
            && |r| >= |suffix|
            && r[kept..] == suffix
            && r[..kept] <= base
            && kept == SliceBound(|base|, TrackingNumberLength - |suffix|)
            && (|suffix| <= TrackingNumberLength ==>
                  kept == Min(|base|, TrackingNumberLength - |suffix|) && |r| <= TrackingNumberLength)
            && (|suffix| <= TrackingNumberLength && |base| == TrackingNumberLength ==>
                  |r| == TrackingNumberLength)
  {
    var base := GenerateTrackingNumber(originPart, destinationPart, customerIdPart);
    var suffix := Decimal(attempt);
    var prefix := Take(base, TrackingNumberLength - |suffix|);
    var r := prefix + suffix;
    assert r[|prefix|..] == suffix && r[..|prefix|] == prefix;
  }

  /** The value `tracking_number` holds in the loop of `create_tracking_number`
      once `attempt` has reached the given value. */
  function Candidate(p: Parts, attempt: nat): string
  {
    if attempt == 0 then GenerateTrackingNumber(p.origin, p.destination, p.customer)
    else GenerateAlternateTrackingNumber(p.origin, p.destination, p.customer, attempt)
  }

  /** Alternates are not pairwise distinct: with a full-width base, attempt 1 and
      attempt 11 give the same string exactly when the base has '1' at index 14,
      and attempt 1 gives the base itself exactly when the base ends in '1'. */
  lemma AlternatesMayRepeat(p: Parts)
    requires |Candidate(p, 0)| == TrackingNumberLength
    ensures Candidate(p, 1) == Candidate(p, 11) <==> Candidate(p, 0)[14] == '1'
    ensures Candidate(p, 1) == Candidate(p, 0) <==> Candidate(p, 0)[15] == '1'
  {
    var base := Candidate(p, 0);
    assert Decimal(1) == "1";
    assert Decimal(11) == "11";
    var a1 := Candidate(p, 1);
    var a11 := Candidate(p, 11);
    assert a1 == base[..15] + "1";
    assert a11 == base[..14] + "11";
    assert base == base[..15] + [base[15]];
    if base[14] == '1' {
      assert base[..15] == base[..14] + "1";
    }
    if a1 == a11 {
      assert a1[14] == a11[14];
    }
    if a1 == base {
      assert a1[15] == base[15];
    }
  }

  predicate IsLetters(s: string) { forall i :: 0 <= i < |s| ==> IsLower(s[i]) || IsUpper(s[i]) }

  predicate IsHexOrDash(c: char)
  {
    IsDigit(c) || 'a' <= c <= 'f' || 'A' <= c <= 'F' || c == '-'
  }

  /** What the request layer hands over: two-letter country codes and the text
      form of a UUID (hex digits and dashes). */
  predicate ValidatedInputs(originCountryId: string, destinationCountryId: string, customerId: string)
  {
    && |originCountryId| == 2 && IsLetters(originCountryId)
    && |destinationCountryId| == 2 && IsLetters(destinationCountryId)
    && forall i :: 0 <= i < |customerId| ==> IsHexOrDash(customerId[i])
  }

  predicate IsUpperAlnum(s: string) { forall i :: 0 <= i < |s| ==> IsUpper(s[i]) || IsDigit(s[i]) }

  /** `^[A-Z0-9]{1,16}$` */
  predicate IsTrackingNumberText(s: string)
  {
    1 <= |s| <= TrackingNumberLength && IsUpperAlnum(s)
  }

  lemma UpperAlnumConcat(a: string, b: string)
    requires IsUpperAlnum(a) && IsUpperAlnum(b)
    ensures IsUpperAlnum(a + b)
  {
    assert forall i :: 0 <= i < |a + b| ==> (a + b)[i] == if i < |a| then a[i] else b[i - |a|];
  }

  lemma PartsUpperAlnum(originCountryId: string, destinationCountryId: string, customerId: string)
    requires ValidatedInputs(originCountryId, destinationCountryId, customerId)
    ensures var p := PartsOf(originCountryId, destinationCountryId, customerId);
            IsUpperAlnum(p.origin) && IsUpperAlnum(p.destination) && IsUpperAlnum(p.customer)
  {
    var stripped := Without(customerId, '-');
    forall i | 0 <= i < |stripped| ensures IsHexOrDash(stripped[i]) && stripped[i] != '-' {
      assert stripped[i] in stripped;
    }
    var kept := Take(stripped, CustomerPartLength);
    assert forall i :: 0 <= i < |kept| ==> kept[i] == stripped[i];
  }

  /** Every candidate the loop can try has the format the API promises, provided
      the attempt number has at most 16 digits (by `DecimalLength`, exactly when
      it is below 10^16). */
  lemma CandidateFormat(originCountryId: string, destinationCountryId: string, customerId: string, attempt: nat)
    requires ValidatedInputs(originCountryId, destinationCountryId, customerId)
    requires |Decimal(attempt)| <= TrackingNumberLength
    ensures IsTrackingNumberText(Candidate(PartsOf(originCountryId, destinationCountryId, customerId), attempt))
  {
    var p := PartsOf(originCountryId, destinationCountryId, customerId);
    PartsUpperAlnum(originCountryId, destinationCountryId, customerId);
    var whole := p.origin + p.destination + p.customer;
    UpperAlnumConcat(p.origin, p.destination);
    UpperAlnumConcat(p.origin + p.destination, p.customer);
    var base := GenerateTrackingNumber(p.origin, p.destination, p.customer);
    assert forall i :: 0 <= i < |base| ==> base[i] == whole[i];
    if attempt > 0 {
      AlternateShape(p.origin, p.destination, p.customer, attempt);
      var kept := Take(base, TrackingNumberLength - |Decimal(attempt)|);
      assert forall i :: 0 <= i < |kept| ==> kept[i] == base[i];
      UpperAlnumConcat(kept, Decimal(attempt));
    }
  }

  /** `f"{s[:-2]}:{s[-2:]}"`: a colon inserted before the last two characters
      (turning a `%z` offset such as `+0800` into `+08:00`). */
  function OffsetWithColon(formattedTime: string): string
  {
    Take(formattedTime, -2) + ":" + Drop(formattedTime, -2)
  }

  lemma OffsetWithColonShape(formattedTime: string)
    ensures var s := formattedTime;
            var r := OffsetWithColon(s);
            var k := if |s| >= 2 then |s| - 2 else 0;
            && |r| == |s| + 1
            && r[k] == ':'
            && r[..k] == s[..k]
            && r[k + 1..] == s[k..]
            && r[..k] + r[k + 1..] == s
  {
  }

  /** The canonical text form of a UUID, as `str(uuid)` produces it: 36
      characters with dashes exactly at indices 8, 13, 18 and 23. */
  predicate IsUuidText(s: string)
  {
    && |s| == 36
    && forall i :: 0 <= i < |s| ==> (s[i] == '-' <==> i == 8 || i == 13 || i == 18 || i == 23)
  }

  /** For a customer id in UUID form the customer part is the first group and
      the second group, upper-cased: twelve characters. */
  lemma UuidCustomerPart(customerId: string)
    requires IsUuidText(customerId)
    ensures CustomerPart(customerId) == Upper(customerId[..8] + customerId[9..13])
    ensures |CustomerPart(customerId)| == CustomerPartLength
  {
    var id := customerId;
    var a, b, rest := id[..8], id[9..13], id[14..];
    assert '-' !in a by { assert forall i :: 0 <= i < 8 ==> a[i] == id[i]; }
    assert '-' !in b by { assert forall i :: 0 <= i < 4 ==> b[i] == id[9 + i]; }
    assert id[9..] == b + [id[13]] + rest;
    assert id == a + [id[8]] + id[9..];
    WithoutSkip(b, rest, '-');
    WithoutSkip(a, id[9..], '-');
    assert Without(id, '-') == (a + b) + Without(rest, '-');
  }

  /** For two-character country codes and a customer id in UUID form, as the
      request layer passes them, the base candidate and every alternate whose
      attempt number has at most 16 digits are exactly 16 characters long. */
  lemma FullWidthCandidates(originCountryId: string, destinationCountryId: string, customerId: string, attempt: nat)
    requires |originCountryId| == 2 && |destinationCountryId| == 2 && IsUuidText(customerId)
    requires |Decimal(attempt)| <= TrackingNumberLength
    ensures |Candidate(PartsOf(originCountryId, destinationCountryId, customerId), attempt)| == TrackingNumberLength
  {
    var p := PartsOf(originCountryId, destinationCountryId, customerId);
    UuidCustomerPart(customerId);
    if attempt > 0 {
      AlternateShape(p.origin, p.destination, p.customer, attempt);
    }
  }

  /** A customer id made of a dash-free group, a dash, a second dash-free group
      and a dash, holding twelve characters between the two groups, then
      anything: its customer part is the two groups, upper-cased. */
  lemma CustomerPartOfGroups(first: string, second: string, rest: string)
    requires '-' !in first && '-' !in second && |first| + |second| == CustomerPartLength
    ensures CustomerPart(first + "-" + second + "-" + rest) == Upper(first) + Upper(second)
  {
    var id := first + "-" + second + "-" + rest;
    WithoutSkip(second, rest, '-');
    WithoutSkip(first, second + "-" + rest, '-');
    assert id == first + ['-'] + (second + ['-'] + rest);
    assert Without(id, '-') == (first + second) + Without(rest, '-');
    assert Take(Without(id, '-'), CustomerPartLength) == first + second;
    UpperAppend(first, second);
  }

  lemma FixtureFirstGroup()
    ensures '-' !in "fe619854" && Upper("fe619854") == "FE619854"
  {
  }

  lemma FixtureSecondGroup()
    ensures '-' !in "b59b" && Upper("b59b") == "B59B"
  {
  }

  /** The customer id of the request fixture of trackingnum/tests.py,
      fe619854-b59b-425e-9db4-943979e1bd49. Its groups are held in local
      variables rather than spelt as one literal, so that the verifier reasons
      about the three pieces instead of unfolding the 36-character string. */
  lemma FixtureCustomerPart()
    ensures var first, second, rest := "fe619854", "b59b", "425e-9db4-943979e1bd49";
            CustomerPart(first + "-" + second + "-" + rest) == "FE619854B59B"
  {
    var first, second, rest := "fe619854", "b59b", "425e-9db4-943979e1bd49";
    FixtureFirstGroup();
    FixtureSecondGroup();
    CustomerPartOfGroups(first, second, rest);
  }

  lemma FixtureBaseAndFirstAlternate()
    ensures Candidate(Parts("MY", "ID", "FE619854B59B"), 0) == "MYIDFE619854B59B"
    ensures Candidate(Parts("MY", "ID", "FE619854B59B"), 1) == "MYIDFE619854B591"
  {
    assert Decimal(1) == "1";
  }

  /** The request fixture of trackingnum/tests.py: origin MY, destination ID and
      customer fe619854-b59b-425e-9db4-943979e1bd49 give the base candidate
      MYIDFE619854B59B, and the first alternate MYIDFE619854B591. */
  lemma FixtureCandidates()
    ensures var customerId := "fe619854" + "-" + "b59b" + "-" + "425e-9db4-943979e1bd49";
            && Candidate(PartsOf("MY", "ID", customerId), 0) == "MYIDFE619854B59B"
            && Candidate(PartsOf("MY", "ID", customerId), 1) == "MYIDFE619854B591"
  {
    var customerId := "fe619854" + "-" + "b59b" + "-" + "425e-9db4-943979e1bd49";
    FixtureCustomerPart();
    assert Upper("MY") == "MY" && Upper("ID") == "ID";
    assert PartsOf("MY", "ID", customerId) == Parts("MY", "ID", "FE619854B59B");
    FixtureBaseAndFirstAlternate();
  }

  lemma FixtureCreatedAt()
    ensures OffsetWithColon("2018-11-20T19:29:32+0800") == "2018-11-20T19:29:32+08:00"
  {
  }
}
