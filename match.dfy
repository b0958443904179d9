/** The prefix and suffix matchers of hertavilla/match.py. `check` reads
    the chain's `plaintext`; on success it sets the current match result,
    which is returned here instead, and `check` itself is true exactly
    when a result is returned. */
module Match {
  import opened Wrappers
  import opened Segments
  import opened Chain

  /** `StartswithResult` and `EndswithResult`, with the matcher they
      carry reduced to its prefix or suffix. */
  datatype MatchResult =
    | StartswithResult(prefix: string, text: string)
    | EndswithResult(suffix: string, text: string)

  /** `Startswith(prefix).check(chain)`: the plain text starts with the
      prefix, and the result text is what follows it. */
  function StartswithCheck(segs: seq<Segment>, prefix: string): (r: Option<MatchResult>)
    ensures r.Some? <==> prefix <= Plaintext(segs)
    ensures r.Some? ==> r.value.StartswithResult? && r.value.prefix == prefix
    ensures r.Some? ==> prefix + r.value.text == Plaintext(segs)
  {
    var plain := Plaintext(segs);
    if prefix <= plain then
      assert prefix + plain[|prefix|..] == plain;
      Some(StartswithResult(prefix, plain[|prefix|..]))
    else None
  }

  /** `plain.endswith(suffix)`. */
  predicate EndsWith(plain: string, suffix: string) {
    |suffix| <= |plain| && plain[|plain| - |suffix|..] == suffix
  }

  /** `Endswith(suffix).check(chain)` as written: the result text is
      `plain[:len(suffix)]`, the first `len(suffix)` characters. */
  function EndswithAsWritten(segs: seq<Segment>, suffix: string): (r: Option<MatchResult>)
    ensures r.Some? <==> EndsWith(Plaintext(segs), suffix)
    ensures r.Some? ==> r.value.EndswithResult? && r.value.suffix == suffix
    ensures r.Some? ==> r.value.text <= Plaintext(segs) && |r.value.text| == |suffix|
  {
    var plain := Plaintext(segs);
    if EndsWith(plain, suffix) then Some(EndswithResult(suffix, plain[..|suffix|])) else None
  }

  /** `Endswith(suffix).check(chain)` as intended, mirroring `Startswith`:
      the result text is what precedes the suffix. */
  function EndswithCheck(segs: seq<Segment>, suffix: string): (r: Option<MatchResult>)
    ensures r.Some? <==> EndsWith(Plaintext(segs), suffix)
    ensures r.Some? ==> r.value.EndswithResult? && r.value.suffix == suffix
    ensures r.Some? ==> r.value.text + suffix == Plaintext(segs)
  {
    var plain := Plaintext(segs);
    if EndsWith(plain, suffix) then
      var n := |plain| - |suffix|;
      assert plain[..n] + plain[n..] == plain;
      Some(EndswithResult(suffix, plain[..n]))
    else None
  }

  /** The result as written is not the text before the suffix: for the
      plain text "abc" and the suffix "c" it is "a", where "ab" precedes
      the suffix. */
  lemma EndswithTextMismatch()
    ensures EndswithAsWritten([Text("abc")], "c") == Some(EndswithResult("c", "a"))
    ensures EndswithCheck([Text("abc")], "c") == Some(EndswithResult("c", "ab"))
  {
    PlaintextSingle(Text("abc"));
    assert "abc"[2..] == "c" && "abc"[..1] == "a" && "abc"[..2] == "ab";
  }

  /** The two agree on whether they match. For the empty suffix the text
      as written is empty where the whole plain text precedes the suffix;
      for a plain text that is the suffix itself, the text as written is
      the suffix where nothing precedes it. */
  lemma EndswithAgreement(segs: seq<Segment>, suffix: string)
    ensures EndswithAsWritten(segs, suffix).Some? <==> EndswithCheck(segs, suffix).Some?
    ensures suffix == [] && EndswithCheck(segs, suffix).Some? ==>
      EndswithCheck(segs, suffix).value.text == Plaintext(segs) && EndswithAsWritten(segs, suffix).value.text == []
    ensures Plaintext(segs) == suffix ==>
      EndswithAsWritten(segs, suffix) == Some(EndswithResult(suffix, suffix))
      && EndswithCheck(segs, suffix) == Some(EndswithResult(suffix, []))
  {
    var plain := Plaintext(segs);
    if plain == suffix {
      assert plain[|plain| - |suffix|..] == plain && plain[..|suffix|] == plain;
    }
    if suffix == [] && EndsWith(plain, suffix) {
      assert plain[..|plain|] == plain;
    }
  }

  /** An empty prefix always matches, with the whole plain text as the
      result. */
  lemma EmptyPrefixMatches(segs: seq<Segment>)
    ensures StartswithCheck(segs, []) == Some(StartswithResult([], Plaintext(segs)))
  {
    assert Plaintext(segs)[0..] == Plaintext(segs);
  }

  /** Only Text segments take part: putting any other segment into the
      chain changes neither check. */
  lemma OnlyTextsMatter(a: seq<Segment>, s: Segment, b: seq<Segment>, pattern: string)
    requires !s.Text?
    ensures StartswithCheck(a + [s] + b, pattern) == StartswithCheck(a + b, pattern)
    ensures EndswithCheck(a + [s] + b, pattern) == EndswithCheck(a + b, pattern)
    ensures EndswithAsWritten(a + [s] + b, pattern) == EndswithAsWritten(a + b, pattern)
  {
    PlaintextAppend(a + [s], b);
    PlaintextAppend(a, [s]);
    PlaintextAppend(a, b);
    PlaintextSingle(s);
    assert Plaintext(a) + "" == Plaintext(a);
  }

  /** The prefix check agrees with the chain built up by `+`: matching
      a chain that starts with a Text of the prefix leaves the plain text
      of the rest. */
  lemma PrefixOfTextHead(prefix: string, rest: seq<Segment>)
    ensures StartswithCheck([Text(prefix)] + rest, prefix) == Some(StartswithResult(prefix, Plaintext(rest)))
  {
    PlaintextAppend([Text(prefix)], rest);
    PlaintextSingle(Text(prefix));
    var plain := prefix + Plaintext(rest);
    assert plain[|prefix|..] == Plaintext(rest);
  }
}
