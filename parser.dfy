/** The descriptor parser: catalog bodies become an ordered list of proxy URIs
    (`split_configs` and the aggregation over all fetched catalogs in main.py). */
module Parser {

  import opened Wrappers
  import opened Text

  /** The proxy schemes whose lines the parser keeps. */
  const Schemes: seq<string> := ["vmess://", "vless://", "trojan://", "ss://", "ssr://"]

  /** Comment and banner prefixes the parser skips: "#", two Chinese "remark" forms with
      ASCII and full-width colons, Chinese "explanation", Persian "server", "Channel",
      "Group", Chinese "must join", and a rule of 32 dashes. */
  const NoisePrefixes: seq<string> := [
    "#", "\U{5907}\U{6CE8}", "\U{5907}\U{6CE8}:", "\U{8BF4}\U{660E}", "\U{5907}\U{6CE8}\U{FF1A}",
    "\U{633}\U{631}\U{648}\U{631}", "Channel", "Group", "\U{5FC5}\U{8FDB}",
    "--------------------------------"
  ]

  /** A string the parser can produce: a stripped, one-line, scheme-prefixed URI. */
  predicate IsDescriptor(s: string) {
    s != [] && Stripped(s) && NoLineBreak(s) && StartsWithAny(s, Schemes)
  }

  predicate AllDescriptors(ls: seq<string>) {
    forall i :: 0 <= i < |ls| ==> IsDescriptor(ls[i])
  }

  /** What one line contributes: itself, stripped, if it begins with a scheme. */
  function Kept(line: string): (r: seq<string>)
    ensures r == [] || r == [Strip(line)]
    ensures r != [] <==> StartsWithAny(Strip(line), Schemes)
  {
    var s := Strip(line);
    if StartsWithAny(s, Schemes) then [s] else []
  }

  /** What `f` makes of each line, concatenated in line order. */
  function ConcatMap(lines: seq<string>, f: string -> seq<string>): seq<string> {
    if lines == [] then []
    else ConcatMap(lines[..|lines| - 1], f) + f(lines[|lines| - 1])
  }

  /** The stripped lines that begin with a scheme, in order, duplicates kept. */
  function SchemeLines(lines: seq<string>): seq<string> {
    ConcatMap(lines, Kept)
  }

  /** A line under a comment or banner prefix never begins with a scheme, so the
      parser's noise check changes nothing about what it keeps. */
  lemma NoiseIsNotScheme(s: string)
    requires StartsWithAny(s, NoisePrefixes)
    ensures !StartsWithAny(s, Schemes)
  {
    var i :| 0 <= i < |NoisePrefixes| && StartsWith(s, NoisePrefixes[i]);
    assert s[0] == NoisePrefixes[i][0];
    assert s[0] in "#\U{5907}\U{8BF4}\U{633}CG\U{5FC5}-";
    forall j | 0 <= j < |Schemes| ensures !StartsWith(s, Schemes[j]) {
      assert Schemes[j][0] in "vts";
    }
  }

  /** An empty line and a comment or banner line contribute nothing. */
  lemma SkippedLine(line: string)
    requires Strip(line) == [] || StartsWithAny(Strip(line), NoisePrefixes)
    ensures Kept(line) == []
  {
    if Strip(line) != [] {
      NoiseIsNotScheme(Strip(line));
    }
  }

  /** An `ssr://` line is kept like any other scheme line (the extractor never gives it
      an address, see `Address.SsrNeverAddressed`). */
  lemma SsrKept(line: string)
    requires StartsWith(line, "ssr://") && Stripped(line)
    ensures Kept(line) == [line]
  {
    assert Schemes[4] == "ssr://";
  }

  /** The body of `split_configs`'s loop for one line: the line is stripped; an empty
      line or a comment or banner line is skipped; a line that begins with a scheme is
      kept. */
  method ParseLine(raw: string) returns (kept: seq<string>)
    ensures kept == Kept(raw)
  {
    var line := Strip(raw);
    if line == [] {
      SkippedLine(raw);
      kept := [];
    } else if StartsWithAny(line, NoisePrefixes) {
      SkippedLine(raw);
      kept := [];
    } else if StartsWithAny(line, Schemes) {
      kept := [line];
    } else {
      kept := [];
    }
  }

  /** `split_configs`: the lines of `text`, each handled by `ParseLine`, in order. */
  method SplitConfigs(text: string) returns (result: seq<string>)
    ensures result == SchemeLines(SplitLines(text))
    ensures AllDescriptors(result)
  {
    var lines := SplitLines(text);
    result := [];
    var i := 0;
    while i < |lines|
      invariant 0 <= i <= |lines|
      invariant result == SchemeLines(lines[..i])
    {
      var kept := ParseLine(lines[i]);
      SchemeLinesNext(lines, i, result, result + kept);
      result := result + kept;
      i := i + 1;
    }
    assert lines[..i] == lines;
    SchemeLinesDescriptors(lines);
  }

  /** One more line adds what `Kept` makes of it. */
  lemma SchemeLinesNext(lines: seq<string>, i: nat, prev: seq<string>, next: seq<string>)
    requires i < |lines| && prev == SchemeLines(lines[..i]) && next == prev + Kept(lines[i])
    ensures next == SchemeLines(lines[..i + 1])
  {
    assert lines[..i + 1][..i] == lines[..i];
  }

  /** Every line `SchemeLines` keeps from one-line input is a descriptor. */
  lemma {:induction false} SchemeLinesDescriptors(lines: seq<string>)
    requires forall i :: 0 <= i < |lines| ==> NoLineBreak(lines[i])
    ensures AllDescriptors(SchemeLines(lines))
  {
    if lines != [] {
      var init, last := lines[..|lines| - 1], lines[|lines| - 1];
      SchemeLinesDescriptors(init);
      KeptDescriptor(last);
      assert SchemeLines(lines) == SchemeLines(init) + Kept(last);
    }
  }

  /** What one line without a line boundary contributes is a descriptor. */
  lemma KeptDescriptor(line: string)
    requires NoLineBreak(line)
    ensures AllDescriptors(Kept(line))
  {
    StripKeepsNoLineBreak(line);
    var s := Strip(line);
    if StartsWithAny(s, Schemes) {
      var j :| 0 <= j < |Schemes| && StartsWith(s, Schemes[j]);
      assert |Schemes[j]| > 0;
    }
  }

  lemma {:induction false} ConcatMapAppend(a: seq<string>, b: seq<string>, f: string -> seq<string>)
    ensures ConcatMap(a + b, f) == ConcatMap(a, f) + ConcatMap(b, f)
    decreases |b|
  {
    if b == [] {
      assert a + b == a;
    } else {
      var b', last := b[..|b| - 1], b[|b| - 1];
      var ab := a + b;
      assert ab[..|ab| - 1] == a + b' && ab[|ab| - 1] == last;
      assert ConcatMap(ab, f) == ConcatMap(a + b', f) + f(last);
      assert ConcatMap(b, f) == ConcatMap(b', f) + f(last);
      ConcatMapAppend(a, b', f);
      assert ConcatMap(ab, f) == (ConcatMap(a, f) + ConcatMap(b', f)) + f(last);
    }
  }

  /** The parser is a filter: it distributes over concatenation of inputs. */
  lemma SchemeLinesAppend(a: seq<string>, b: seq<string>)
    ensures SchemeLines(a + b) == SchemeLines(a) + SchemeLines(b)
  {
    ConcatMapAppend(a, b, Kept);
  }

  /** A list of descriptors is left as it is by the filter. */
  lemma {:induction false} SchemeLinesOfDescriptors(ls: seq<string>)
    requires AllDescriptors(ls)
    ensures SchemeLines(ls) == ls
  {
    if ls != [] {
      SchemeLinesOfDescriptors(ls[..|ls| - 1]);
      assert IsDescriptor(ls[|ls| - 1]);
    }
  }

  /** The export format (`"\n".join` of a list of descriptors) parses back to the same
      list, in the same order and with the same repetitions. */
  lemma ExportRoundTrip(ls: seq<string>)
    requires AllDescriptors(ls)
    ensures SchemeLines(SplitLines(JoinLines(ls))) == ls
  {
    SplitJoinLines(ls);
    SchemeLinesOfDescriptors(ls);
  }

  /** The aggregate of all catalogs: the parsed lines of each fetched body, in the
      order of the sources; a source that could not be fetched is `None`. */
  function AggregateSpec(bodies: seq<Option<string>>): seq<string> {
    if bodies == [] then []
    else
      var last := bodies[|bodies| - 1];
      AggregateSpec(bodies[..|bodies| - 1]) + (if last.Some? then SchemeLines(SplitLines(last.value)) else [])
  }

  /** The loop over the gathered fetch results (`configs.extend(split_configs(res))`). */
  method Aggregate(bodies: seq<Option<string>>) returns (all: seq<string>)
    ensures all == AggregateSpec(bodies)
    ensures AllDescriptors(all)
  {
    all := [];
    var i := 0;
    while i < |bodies|
      invariant 0 <= i <= |bodies|
      invariant all == AggregateSpec(bodies[..i])
      invariant AllDescriptors(all)
    {
      assert bodies[..i + 1][..i] == bodies[..i];
      if bodies[i].Some? {
        var parsed := SplitConfigs(bodies[i].value);
        all := all + parsed;
      }
      i := i + 1;
    }
    assert bodies[..i] == bodies;
  }
}
