/** The Range header parser of the `vhs://` file handler. It accepts only the
    single-range form of a `byte-ranges-specifier` (section 2.1 of RFC 7233),
    `bytes=<first>-<last?>`, and validates it against the size of the file. */
module RangeRequest {
  import opened Text

  /** An inclusive interval of byte positions. */
  datatype ByteRange = ByteRange(start: nat, end: nat)

  const Prefix: string := "bytes="

  /** The two digit groups of a header that matches `^bytes=(\d+)-(\d*)$`, or None
      when it does not match. */
  function MatchRange(header: string): (r: Option<(string, string)>)
    ensures r.Some? ==> header == Prefix + r.value.0 + "-" + r.value.1
    ensures r.Some? ==> |r.value.0| >= 1 && AllDigits(r.value.0) && AllDigits(r.value.1)
  {
    if !StartsWith(header, Prefix) then None
    else
      var rest := header[|Prefix|..];
      var k := IndexOf(rest, '-');
      if k > 0 && AllDigits(rest[..k]) && AllDigits(rest[k + 1..]) then
        assert rest == rest[..k] + "-" + rest[k + 1..];
        assert header == Prefix + rest;
        Some((rest[..k], rest[k + 1..]))
      else None
  }

  /** Every header of the form `bytes=<digits>-<digits?>` matches, with exactly
      those two groups: MatchRange misses nothing the pattern accepts. */
  lemma MatchRangeComplete(first: string, last: string)
    requires |first| >= 1 && AllDigits(first) && AllDigits(last)
    ensures MatchRange(Prefix + first + "-" + last) == Some((first, last))
  {
    var header := Prefix + first + "-" + last;
    assert StartsWith(header, Prefix);
    var rest := header[|Prefix|..];
    assert rest == first + "-" + last;
    assert rest[..|first|] == first;
    assert forall i :: 0 <= i < |first| ==> first[i] != '-';
    assert rest[|first|] == '-';
    assert IndexOf(rest, '-') == |first|;
    assert rest[|first| + 1..] == last;
  }

  /** `parseRangeHeader`: the validated interval, or None for a missing, empty,
      malformed or unsatisfiable header. A result always lies inside the file. */
  function ParseRangeHeader(header: Option<string>, fileSize: nat): (r: Option<ByteRange>)
    ensures r.Some? ==> r.value.start <= r.value.end < fileSize
    ensures r.Some? ==> header.Some? && MatchRange(header.value).Some?
  {
    if header.None? || header.value == "" then None
    else
      match MatchRange(header.value)
      case None => None
      case Some(groups) =>
        var start := Decimal(groups.0);
        var end := if groups.1 != "" then Decimal(groups.1) else fileSize - 1;
        if start >= fileSize || end < start || end >= fileSize then None
        else Some(ByteRange(start, end))
  }

  /** Exactly which headers of the accepted shape yield a range: the first position
      must lie in the file and the last (or the end of the file when it is
      omitted) must lie between the first and the end of the file. */
  lemma {:induction false} ParseRangeHeaderExact(first: string, last: string, fileSize: nat)
    requires |first| >= 1 && AllDigits(first) && AllDigits(last)
    ensures var start := Decimal(first);
            var end := if last == "" then fileSize - 1 else Decimal(last);
            ParseRangeHeader(Some(Prefix + first + "-" + last), fileSize)
            == if start < fileSize && start <= end < fileSize then Some(ByteRange(start, end)) else None
  {
    MatchRangeComplete(first, last);
  }

  /** Every accepted header reads `bytes=` followed by digits, one dash and digits;
      so a suffix range (`bytes=-500`), a list of ranges (`bytes=0-1,5-9`) and a
      header with white space are all rejected. */
  lemma AcceptedHeaderShape(header: string, fileSize: nat)
    requires ParseRangeHeader(Some(header), fileSize).Some?
    ensures StartsWith(header, Prefix)
    ensures IsDigit(header[|Prefix|])
    ensures forall i :: |Prefix| <= i < |header| ==> IsDigit(header[i]) || header[i] == '-'
    ensures ',' !in header && ' ' !in header
  {
    var groups := MatchRange(header).value;
    assert header == Prefix + groups.0 + "-" + groups.1;
    forall i | |Prefix| <= i < |header| ensures IsDigit(header[i]) || header[i] == '-' {
      if i < |Prefix| + |groups.0| {
        assert header[i] == groups.0[i - |Prefix|];
      } else if i > |Prefix| + |groups.0| {
        assert header[i] == groups.1[i - |Prefix| - |groups.0| - 1];
      }
    }
    assert header[|Prefix|] == groups.0[0];
  }

  /** `bytes=a-b` with `a <= b < size` gives exactly the interval [a, b]. */
  lemma ExplicitRangeAccepted(a: nat, b: nat, fileSize: nat)
    requires a <= b < fileSize
    ensures ParseRangeHeader(Some(Prefix + NatToString(a) + "-" + NatToString(b)), fileSize)
            == Some(ByteRange(a, b))
  {
    ParseRangeHeaderExact(NatToString(a), NatToString(b), fileSize);
  }

  /** `bytes=a-` with `a < size` runs to the last byte of the file. */
  lemma OpenRangeAccepted(a: nat, fileSize: nat)
    requires a < fileSize
    ensures ParseRangeHeader(Some(Prefix + NatToString(a) + "-"), fileSize)
            == Some(ByteRange(a, fileSize - 1))
  {
    ParseRangeHeaderExact(NatToString(a), "", fileSize);
    assert Prefix + NatToString(a) + "-" + "" == Prefix + NatToString(a) + "-";
  }

  /** A header whose first position is past the end, whose last position is before
      the first, or whose last position is past the end is rejected. */
  lemma UnsatisfiableRangeRejected(a: nat, b: nat, fileSize: nat)
    requires a >= fileSize || b < a || b >= fileSize
    ensures ParseRangeHeader(Some(Prefix + NatToString(a) + "-" + NatToString(b)), fileSize) == None
  {
    ParseRangeHeaderExact(NatToString(a), NatToString(b), fileSize);
  }
}
