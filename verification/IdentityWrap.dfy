/** The key-derivation parameters stored with a wrapped identity, as text. */
module IdentityWrap {
  import opened Wrappers
  import opened Strings
  import Decimal

  datatype KdfParams = KdfParams(timeCost: int, memoryCost: int, parallelism: int)

  datatype ParamError = UnsupportedAlgorithm | MalformedParam | UnknownParam | InvalidValue | Incomplete

  /** Reading a number: its value if the text is an integer. */
  type Number = string -> Option<int>

  const ALGORITHM := "argon2id"

  /** One `key=value` part; anything after a second `=` is ignored. */
  function ParsePart(number: Number, part: string): Result<(string, int), ParamError> {
    var pieces := Split(part, '=');
    if pieces[0] == "" || |pieces| < 2 then Err(MalformedParam)
    else if pieces[0] !in {"t", "m", "p"} then Err(UnknownParam)
    else
      match number(pieces[1])
      case None => Err(InvalidValue)
      case Some(n) => if n <= 0 then Err(InvalidValue) else Ok((pieces[0], n))
  }

  /** The values given by the parts, a repeated key keeping its last; the first bad part is the error. */
  function ParseParts(number: Number, parts: seq<string>): Result<map<string, int>, ParamError> {
    if parts == [] then Ok(map[])
    else
      match ParseParts(number, parts[..|parts| - 1])
      case Err(e) => Err(e)
      case Ok(values) =>
        match ParsePart(number, parts[|parts| - 1])
        case Err(e) => Err(e)
        case Ok((key, n)) => Ok(values[key := n])
  }

  function Parse(number: Number, params: string): Result<KdfParams, ParamError> {
    var parts := Split(params, ':');
    if parts[0] != ALGORITHM then Err(UnsupportedAlgorithm)
    else
      match ParseParts(number, parts[1..])
      case Err(e) => Err(e)
      case Ok(values) =>
        if "t" !in values || "m" !in values || "p" !in values then Err(Incomplete)
        else Ok(KdfParams(values["t"], values["m"], values["p"]))
  }

  method ParseWrapKdfParams(number: Number, params: string) returns (r: Result<KdfParams, ParamError>)
    ensures r == Parse(number, params)
  {
    var parts := Split(params, ':');
    if parts[0] != ALGORITHM {
      return Err(UnsupportedAlgorithm);
    }
    var rest := parts[1..];
    var values: map<string, int> := map[];
    for i := 0 to |rest|
      invariant ParseParts(number, rest[..i]) == Ok(values)
    {
      assert rest[..i + 1][..i] == rest[..i];
      var part := ParsePart(number, rest[i]);
      if part.Err? {
        ErrorStays(number, rest, i + 1);
        return Err(part.error);
      }
      values := values[part.value.0 := part.value.1];
    }
    assert rest[..|rest|] == rest;
    if "t" !in values || "m" !in values || "p" !in values {
      return Err(Incomplete);
    }
    return Ok(KdfParams(values["t"], values["m"], values["p"]));
  }

  lemma {:induction false} ErrorStays(number: Number, parts: seq<string>, n: nat)
    requires n <= |parts| && ParseParts(number, parts[..n]).Err?
    ensures ParseParts(number, parts) == ParseParts(number, parts[..n])
    decreases |parts| - n
  {
    if n < |parts| {
      assert parts[..n + 1][..n] == parts[..n];
      ErrorStays(number, parts, n + 1);
    } else {
      assert parts[..n] == parts;
    }
  }

  function Field(key: string, n: int): string {
    key + "=" + Decimal.Print(n)
  }

  /** The text a record stores for given parameters. */
  function Format(p: KdfParams): string {
    ALGORITHM + ":" + (Field("t", p.timeCost) + ":" + (Field("m", p.memoryCost) + ":" + Field("p", p.parallelism)))
  }

  lemma DigitsHoldNo(n: nat, c: char)
    requires n > 0 && !Decimal.IsDigit(c)
    ensures c !in Decimal.Print(n)
  {
  }

  lemma PartRoundTrip(number: Number, key: string, n: nat)
    requires key in {"t", "m", "p"} && n > 0 && number(Decimal.Print(n)) == Some(n)
    ensures ParsePart(number, Field(key, n)) == Ok((key, n))
    ensures ':' !in Field(key, n)
  {
    DigitsHoldNo(n, '=');
    DigitsHoldNo(n, ':');
    SplitAt(key, Decimal.Print(n), '=');
    SplitNone(Decimal.Print(n), '=');
  }

  lemma FourParts(a: string, b: string, c: string, d: string)
    requires ':' !in a && ':' !in b && ':' !in c && ':' !in d
    ensures Split(a + ":" + (b + ":" + (c + ":" + d)), ':') == [a, b, c, d]
  {
    SplitNone(d, ':');
    SplitAt(c, d, ':');
    SplitAt(b, c + ":" + d, ':');
    SplitAt(a, b + ":" + (c + ":" + d), ':');
    assert [a] + ([b] + ([c] + [d])) == [a, b, c, d];
  }

  lemma ParseAppend(number: Number, parts: seq<string>, part: string, values: map<string, int>, key: string, n: int)
    requires ParseParts(number, parts) == Ok(values) && ParsePart(number, part) == Ok((key, n))
    ensures ParseParts(number, parts + [part]) == Ok(values[key := n])
  {
  }

  lemma ThreeParts(number: Number, t: string, m: string, l: string, a: int, b: int, c: int)
    requires ParsePart(number, t) == Ok(("t", a)) && ParsePart(number, m) == Ok(("m", b))
             && ParsePart(number, l) == Ok(("p", c))
    ensures ParseParts(number, [t, m, l]) == Ok(map["t" := a, "m" := b, "p" := c])
  {
    var start: map<string, int>, none: seq<string> := map[], [];
    ParseAppend(number, none, t, start, "t", a);
    ParseAppend(number, none + [t], m, start["t" := a], "m", b);
    ParseAppend(number, none + [t] + [m], l, start["t" := a]["m" := b], "p", c);
    assert none + [t] + [m] + [l] == [t, m, l];
  }

  /** Any browser reads back exactly the parameters a record was stored with. */
  lemma ParamsRoundTrip(number: Number, p: KdfParams)
    requires forall n: int :: n > 0 ==> number(Decimal.Print(n)) == Some(n)
    requires p.timeCost > 0 && p.memoryCost > 0 && p.parallelism > 0
    ensures Parse(number, Format(p)) == Ok(p)
  {
    var t, m, l := Field("t", p.timeCost), Field("m", p.memoryCost), Field("p", p.parallelism);
    PartRoundTrip(number, "t", p.timeCost);
    PartRoundTrip(number, "m", p.memoryCost);
    PartRoundTrip(number, "p", p.parallelism);
    FourParts(ALGORITHM, t, m, l);
    ThreeParts(number, t, m, l, p.timeCost, p.memoryCost, p.parallelism);
    assert [ALGORITHM, t, m, l][1..] == [t, m, l];
  }

  /** A part that gives `key` the value `n`. */
  predicate Gives(number: Number, part: string, key: string, n: int) {
    var pieces := Split(part, '=');
    |pieces| >= 2 && pieces[0] == key && key in {"t", "m", "p"} && number(pieces[1]) == Some(n) && n > 0
  }

  lemma PartGives(number: Number, part: string, key: string, n: int)
    ensures ParsePart(number, part) == Ok((key, n)) <==> Gives(number, part, key, n)
  {
  }

  /** `n` is what the last part for `key` gives. */
  ghost predicate LastGives(number: Number, parts: seq<string>, key: string, n: int) {
    exists i :: 0 <= i < |parts| && Gives(number, parts[i], key, n) &&
                forall j, other :: i < j < |parts| ==> !Gives(number, parts[j], key, other)
  }

  lemma {:induction false} PartsGive(number: Number, parts: seq<string>)
    ensures ParseParts(number, parts).Ok? <==> forall i :: 0 <= i < |parts| ==> ParsePart(number, parts[i]).Ok?
    ensures ParseParts(number, parts).Ok? ==>
              forall key, n :: (key in ParseParts(number, parts).value
                  && ParseParts(number, parts).value[key] == n) <==>
                               LastGives(number, parts, key, n)
  {
    if parts != [] {
      var init, last := parts[..|parts| - 1], parts[|parts| - 1];
      PartsGive(number, init);
      assert forall i :: 0 <= i < |init| ==> parts[i] == init[i];
      if ParseParts(number, parts).Ok? {
        var (k, v) := ParsePart(number, last).value;
        forall key, n ensures LastGives(number, parts, key, n) <==> if key == k then n == v
            else LastGives(number, init, key, n) {
          LastOfMore(number, parts, k, v, key, n);
        }
      }
    }
  }

  lemma LastOfMore(number: Number, parts: seq<string>, k: string, v: int, key: string, n: int)
    requires parts != [] && ParsePart(number, parts[|parts| - 1]) == Ok((k, v))
    ensures LastGives(number, parts, key, n) <==>
            if key == k then n == v else LastGives(number, parts[..|parts| - 1], key, n)
  {
    var init, m := parts[..|parts| - 1], |parts| - 1;
    assert Gives(number, parts[m], k, v);
    assert forall i :: 0 <= i < m ==> parts[i] == init[i];
    if key != k {
      assert forall other :: !Gives(number, parts[m], key, other);
      if i :| 0 <= i < |init| && Gives(number, init[i], key, n) &&
              forall j, other :: i < j < |init| ==> !Gives(number, init[j], key, other) {
        assert Gives(number, parts[i], key, n);
      }
    }
  }

  ghost predicate GivesSomething(number: Number, part: string) {
    exists key, n :: Gives(number, part, key, n)
  }

  lemma PartParsesIff(number: Number, part: string)
    ensures ParsePart(number, part).Ok? <==> GivesSomething(number, part)
  {
    if ParsePart(number, part).Ok? {
      PartGives(number, part, ParsePart(number, part).value.0, ParsePart(number, part).value.1);
    }
    if key, n :| Gives(number, part, key, n) {
      PartGives(number, part, key, n);
    }
  }

  /** Whether every part gives one of the parameters a value. */
  ghost predicate AllGive(number: Number, parts: seq<string>) {
    forall i :: 0 <= i < |parts| ==> GivesSomething(number, parts[i])
  }

  lemma PartsParseIffAllGive(number: Number, parts: seq<string>)
    ensures ParseParts(number, parts).Ok? <==> AllGive(number, parts)
  {
    PartsGive(number, parts);
    forall i | 0 <= i < |parts| ensures ParsePart(number, parts[i]).Ok? <==> GivesSomething(number, parts[i]) {
      PartParsesIff(number, parts[i]);
    }
  }

  /**
   Exactly which texts are accepted, and with which parameters: the algorithm's name, then only
   parts that give one of the three parameters a positive value, each of the three given; for each
   the last one counts.
   */
  lemma ParseAcceptsIff(number: Number, params: string, p: KdfParams)
    ensures var parts := Split(params, ':');
            Parse(number, params) == Ok(p) <==>
            && parts[0] == "argon2id" && AllGive(number, parts[1..])
            && LastGives(number, parts[1..], "t", p.timeCost) && LastGives(number, parts[1..], "m", p.memoryCost)
            && LastGives(number, parts[1..], "p", p.parallelism)
  {
    var rest := Split(params, ':')[1..];
    PartsParseIffAllGive(number, rest);
    PartsGive(number, rest);
  }
}
