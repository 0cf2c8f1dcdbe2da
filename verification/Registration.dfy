/** The strings with which a client registers interfaces and parameters, and how the
    manager takes them apart again. */
module Registration {

  import opened Decimals

  // ---- the scanner ----

  /** The part being read. */
  datatype Mode = Name | Dimensions | Causality | Domain

  datatype Scan = Scan(mode: Mode, name: string, dimensions: string, causality: string, domain: string)

  predicate Separates(mode: Mode, c: char) {
    c == ':' && mode != Domain
  }

  function Next(mode: Mode): Mode {
    match mode
    case Name => Dimensions
    case Dimensions => Causality
    case _ => Domain
  }

  function Append(p: Scan, s: string): Scan {
    match p.mode
    case Name => p.(name := p.name + s)
    case Dimensions => p.(dimensions := p.dimensions + s)
    case Causality => p.(causality := p.causality + s)
    case Domain => p.(domain := p.domain + s)
  }

  /** Reading one more character. */
  function Read(p: Scan, c: char): Scan {
    if Separates(p.mode, c) then p.(mode := Next(p.mode)) else Append(p, [c])
  }

  function ReadAll(p: Scan, s: string): Scan
    decreases |s|
  {
    if s == "" then p else ReadAll(Read(p, s[0]), s[1..])
  }

  lemma {:induction false} ReadOneMore(p: Scan, s: string, c: char)
    ensures ReadAll(p, s + [c]) == Read(ReadAll(p, s), c)
    decreases |s|
  {
    if s == "" {
      assert s + [c] == [c] && [c][1..] == "";
    } else {
      assert (s + [c])[1..] == s[1..] + [c];
      ReadOneMore(Read(p, s[0]), s[1..], c);
    }
  }

  /** Without a separator everything belongs to the part being read. */
  lemma {:induction false} ReadPlain(p: Scan, s: string, rest: string)
    requires p.mode == Domain || ':' !in s
    ensures ReadAll(p, s + rest) == ReadAll(Append(p, s), rest)
    decreases |s|
  {
    if s == "" {
      assert s + rest == rest && Append(p, s) == p;
    } else {
      assert (s + rest)[1..] == s[1..] + rest && [s[0]] + s[1..] == s;
      ReadPlain(Append(p, [s[0]]), s[1..], rest);
      assert Append(Append(p, [s[0]]), s[1..]) == Append(p, s);
    }
  }

  lemma ReadSeparator(p: Scan, rest: string)
    requires p.mode != Domain
    ensures ReadAll(p, ":" + rest) == ReadAll(p.(mode := Next(p.mode)), rest)
  {
    assert (":" + rest)[1..] == rest;
  }

  /** With a separator the part being read ends at the first one. */
  lemma {:induction false} ReadUpToSeparator(p: Scan, s: string, rest: string) returns (head: string, tail: string)
    requires p.mode != Domain && ':' in s
    ensures s == head + ":" + tail && ':' !in head
    ensures ReadAll(p, s + rest) == ReadAll(Append(p, head).(mode := Next(p.mode)), tail + rest)
    decreases |s|
  {
    if s[0] == ':' {
      head, tail := "", s[1..];
      assert s + rest == ":" + (tail + rest) && Append(p, "") == p;
      ReadSeparator(p, tail + rest);
    } else {
      assert ':' in s[1..];
      head, tail := ReadUpToSeparator(Append(p, [s[0]]), s[1..], rest);
      assert (s + rest)[1..] == s[1..] + rest;
      assert Append(Append(p, [s[0]]), head) == Append(p, [s[0]] + head);
      head := [s[0]] + head;
    }
  }

  /** Once read, names and causalities are not read again. */
  lemma {:induction false} PartsAreKept(p: Scan, s: string)
    ensures p.mode != Name ==> ReadAll(p, s).name == p.name
    ensures p.mode == Domain ==> ReadAll(p, s).causality == p.causality
    ensures ReadAll(p, s).mode == Name ==> ReadAll(p, s) == Append(p, s)
    decreases |s|
  {
    if s == "" {
      assert Append(p, "") == p;
    } else {
      PartsAreKept(Read(p, s[0]), s[1..]);
      assert [s[0]] + s[1..] == s;
      if p.mode != Name {
        NameIsLeft(p, s);
      }
    }
  }

  lemma {:induction false} NameIsLeft(p: Scan, s: string)
    requires p.mode != Name
    ensures ReadAll(p, s).mode != Name
    decreases |s|
  {
    if s != "" {
      NameIsLeft(Read(p, s[0]), s[1..]);
    }
  }

  // ---- interfaces ----

  datatype Description = Description(name: string, dimensions: int, causality: string, domain: string)

  /** What a client sends to register an interface. */
  function Specification(i: Description): string {
    i.name + ":" + Decimal(i.dimensions) + ":" + i.causality + ":" + i.domain
  }

  /** What is known before the first character: a specification without separators comes
      from clients that only send names. */
  function Start(specification: string): Scan {
    if ':' !in specification then Scan(Name, "", "6", "bidirectional", "mechanical") else Scan(Name, "", "", "", "")
  }

  function Finish(p: Scan): Description {
    Description(p.name, if p.dimensions == "3D" then 6 else Atoi(p.dimensions),
              if p.causality == "" then "bidirectional" else p.causality,
              if p.domain == "" then "mechanical" else p.domain)
  }

  function Parse(specification: string): Description {
    Finish(ReadAll(Start(specification), specification))
  }

  /** The manager's scanner. */
  method ScanSpecification(aSpecification: string) returns (r: Description)
    ensures r == Parse(aSpecification)
  {
    var aName, dimStr, causality, domain := "", "", "", "";
    if ':' !in aSpecification {
      dimStr := "6";
      causality := "bidirectional";
      domain := "mechanical";
    }
    var readingName, readingDimensions, readingCausality, readingDomain := true, false, false, false;
    var i := 0;
    while i < |aSpecification|
      invariant i <= |aSpecification|
      invariant Scan(ModeOf(readingName, readingDimensions, readingCausality), aName, dimStr, causality, domain)
             == ReadAll(Start(aSpecification), aSpecification[..i])
      invariant readingDomain <==> !readingName && !readingDimensions && !readingCausality
      invariant readingName ==> !readingDimensions && !readingCausality
      invariant readingDimensions ==> !readingCausality
    {
      var c := aSpecification[i];
      ReadOneMore(Start(aSpecification), aSpecification[..i], c);
      assert aSpecification[..i + 1] == aSpecification[..i] + [c];
      if c == ':' && readingName {
        readingName, readingDimensions := false, true;
      } else if c == ':' && readingDimensions {
        readingDimensions, readingCausality := false, true;
      } else if c == ':' && readingCausality {
        readingCausality, readingDomain := false, true;
      } else if readingDomain {
        domain := domain + [c];
      } else if readingCausality {
        causality := causality + [c];
      } else if readingDimensions {
        dimStr := dimStr + [c];
      } else {
        aName := aName + [c];
      }
      i := i + 1;
    }
    assert aSpecification[..i] == aSpecification;
    var dimensions := if dimStr == "3D" then 6 else Atoi(dimStr);
    if causality == "" {
      causality := "bidirectional";
    }
    if domain == "" {
      domain := "mechanical";
    }
    r := Description(aName, dimensions, causality, domain);
  }

  function ModeOf(readingName: bool, readingDimensions: bool, readingCausality: bool): Mode {
    if readingName then Name
    else if readingDimensions then Dimensions
    else if readingCausality then Causality
    else Domain
  }

  lemma DecimalIsPlain(n: int)
    ensures ':' !in Decimal(n) && Decimal(n) != "3D"
  {
    var other := "3D";
    if n < 0 {
      assert Decimal(n)[0] == '-' && other[0] == '3';
      assert forall k :: 0 < k < |Decimal(n)| ==> Decimal(n)[k] == Digits(-n)[k - 1];
    } else {
      assert !IsDigit(other[1]);
    }
  }

  /** What the scanner reads after the name. */
  lemma ReadAfterName(p: Scan, dimensions: string, causality: string, domain: string)
    requires p.mode == Dimensions && p.dimensions == p.causality == p.domain == ""
    requires ':' !in dimensions && ':' !in causality
    ensures ReadAll(p, dimensions + (":" + (causality + (":" + domain))))
         == Scan(Domain, p.name, dimensions, causality, domain)
  {
    var q := Append(p, dimensions).(mode := Causality);
    var r := Append(q, causality).(mode := Domain);
    ReadPlain(p, dimensions, ":" + (causality + (":" + domain)));
    ReadSeparator(Append(p, dimensions), causality + (":" + domain));
    ReadPlain(q, causality, ":" + domain);
    ReadSeparator(Append(q, causality), domain);
    ReadPlain(r, domain, "");
    assert domain + "" == domain;
  }

  lemma Grouped(i: Description)
    ensures Specification(i) == i.name + (":" + (Decimal(i.dimensions) + (":" + (i.causality + (":" + i.domain)))))
    ensures ':' in Specification(i)
  {
    var s := Specification(i);
    assert s == i.name + (":" + (Decimal(i.dimensions) + (":" + (i.causality + (":" + i.domain)))));
    assert s[|i.name|] == ':';
  }

  /** The manager recovers what the client printed exactly when the name and the causality
      contain no separator and neither the causality nor the domain is empty. */
  lemma InterfaceRoundTrip(i: Description)
    ensures Parse(Specification(i)) == i <==>
      ':' !in i.name && ':' !in i.causality && i.causality != "" && i.domain != ""
  {
    Grouped(i);
    var start := Scan(Name, "", "", "", "");
    var rest := Decimal(i.dimensions) + (":" + (i.causality + (":" + i.domain)));
    if ':' in i.name {
      NameCutOff(start, i.name, ":" + rest);
    } else {
      ReadPlain(start, i.name, ":" + rest);
      var p := Append(start, i.name);
      ReadSeparator(p, rest);
      if ':' in i.causality {
        CausalityCutOff(p.(mode := Dimensions), i);
      } else {
        DecimalIsPlain(i.dimensions);
        ReadAfterName(p.(mode := Dimensions), Decimal(i.dimensions), i.causality, i.domain);
        AtoiOfDecimal(i.dimensions);
      }
    }
  }

  lemma NameCutOff(p: Scan, name: string, rest: string)
    requires p.mode == Name && p.name == "" && ':' in name
    ensures ReadAll(p, name + rest).name != name
  {
    var head, tail := ReadUpToSeparator(p, name, rest);
    PartsAreKept(Append(p, head).(mode := Dimensions), tail + rest);
    assert |head| < |name|;
  }

  lemma CausalityCutOff(p: Scan, i: Description)
    requires p.mode == Dimensions && p.causality == "" && ':' in i.causality
    ensures
      var rest := Decimal(i.dimensions) + (":" + (i.causality + (":" + i.domain)));
      Finish(ReadAll(p, rest)).causality != i.causality
  {
    DecimalIsPlain(i.dimensions);
    ReadPlain(p, Decimal(i.dimensions), ":" + (i.causality + (":" + i.domain)));
    ReadSeparator(Append(p, Decimal(i.dimensions)), i.causality + (":" + i.domain));
    var q := Append(p, Decimal(i.dimensions)).(mode := Causality);
    var head, tail := ReadUpToSeparator(q, i.causality, ":" + i.domain);
    PartsAreKept(Append(q, head).(mode := Domain), tail + (":" + i.domain));
    assert |head| < |i.causality|;
    assert ':' !in "bidirectional";
  }

  /** A name alone stands for a three-dimensional mechanical interface. */
  lemma BareName(name: string)
    requires ':' !in name
    ensures Parse(name) == Description(name, 6, "bidirectional", "mechanical")
  {
    ReadPlain(Start(name), name, "");
    assert name + "" == name;
    AtoiOfDecimal(6);
    assert Decimal(6) == "6";
  }

  // ---- what the parts are ----

  /** Three separators: name, dimensions, causality and domain in that order, where "3D" stands
      for six dimensions and an empty causality or domain for the usual one. */
  lemma FourParts(name: string, dimensions: string, causality: string, domain: string)
    requires ':' !in name && ':' !in dimensions && ':' !in causality
    ensures Parse(name + (":" + (dimensions + (":" + (causality + (":" + domain))))))
         == Description(name, if dimensions == "3D" then 6 else Atoi(dimensions),
                        if causality == "" then "bidirectional" else causality,
                        if domain == "" then "mechanical" else domain)
  {
    var rest := dimensions + (":" + (causality + (":" + domain)));
    ReadName(name, rest);
    ReadAfterName(Scan(Dimensions, name, "", "", ""), dimensions, causality, domain);
  }

  /** The part before the first separator is the name. */
  lemma ReadName(name: string, rest: string)
    requires ':' !in name
    ensures
      var text := name + (":" + rest);
      ReadAll(Start(text), text) == ReadAll(Scan(Dimensions, name, "", "", ""), rest)
  {
    var start := Scan(Name, "", "", "", "");
    assert (name + (":" + rest))[|name|] == ':';
    ReadPlain(start, name, ":" + rest);
    ReadSeparator(Append(start, name), rest);
    assert "" + name == name;
    assert Append(start, name).(mode := Dimensions) == Scan(Dimensions, name, "", "", "");
  }

  /** One separator: causality and domain are the usual ones. */
  lemma TwoParts(name: string, dimensions: string)
    requires ':' !in name && ':' !in dimensions
    ensures Parse(name + (":" + dimensions))
         == Description(name, if dimensions == "3D" then 6 else Atoi(dimensions), "bidirectional", "mechanical")
  {
    ReadName(name, dimensions);
    ReadPlain(Scan(Dimensions, name, "", "", ""), dimensions, "");
    assert dimensions + "" == dimensions && "" + dimensions == dimensions;
    assert Append(Scan(Dimensions, name, "", "", ""), dimensions) == Scan(Dimensions, name, dimensions, "", "");
  }

  // ---- parameters ----

  function NameAndValue(name: string, value: string): string {
    name + ":" + value
  }

  /** The first separator, or the length when there is none. */
  function FirstSeparator(s: string): (k: nat)
    ensures k <= |s| && ':' !in s[..k] && (k < |s| ==> s[k] == ':')
  {
    if s == "" then 0
    else if s[0] == ':' then 0
    else
      var k := FirstSeparator(s[1..]);
      assert s[..k + 1] == [s[0]] + s[1..][..k];
      k + 1
  }

  /** Only the first separator counts: the value may contain others. */
  method ScanNameAndValue(aNameAndValue: string) returns (aName: string, aValue: string)
    ensures var k := FirstSeparator(aNameAndValue);
      aName == aNameAndValue[..k] && aValue == if k < |aNameAndValue| then aNameAndValue[k + 1..] else ""
  {
    aName, aValue := "", "";
    var readingName := true;
    var i := 0;
    ghost var k := FirstSeparator(aNameAndValue);
    while i < |aNameAndValue|
      invariant i <= |aNameAndValue| && (readingName <==> i <= k)
      invariant aName == aNameAndValue[..if i <= k then i else k]
      invariant aValue == if i <= k then "" else aNameAndValue[k + 1..i]
    {
      if aNameAndValue[i] == ':' && readingName {
        assert aNameAndValue[..k] == aNameAndValue[..i] + aNameAndValue[i..k];
        readingName := false;
      } else if readingName {
        aName := aName + [aNameAndValue[i]];
      } else {
        aValue := aValue + [aNameAndValue[i]];
      }
      i := i + 1;
    }
  }

  /** The manager recovers name and value exactly when the name contains no separator. */
  lemma ParameterRoundTrip(name: string, value: string)
    ensures
      var s := NameAndValue(name, value);
      var k := FirstSeparator(s);
      s[..k] == name && k < |s| && s[k + 1..] == value <==> ':' !in name
  {
    var s := NameAndValue(name, value);
    var k := FirstSeparator(s);
    assert s[|name|] == ':' && s[..|name|] == name && s[|name| + 1..] == value;
    if k < |name| {
      assert name[k] == ':';
    }
  }
}
