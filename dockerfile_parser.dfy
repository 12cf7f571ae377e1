/**
 * The Dockerfile directive scanner: the `EXPOSE` and `VOLUME` values of a Dockerfile.
 *
 * Each directive is found with the global regular expression `KW\s+(.+)`, applied again
 * and again from the end of the previous match. The expression is case-sensitive and not
 * anchored to a line start, `\s+` is greedy and crosses line breaks, and `.` stops at a
 * line terminator. When the white space after the keyword runs to the end of the text,
 * the engine gives characters back to `\s+` until `.+` can match one of them.
 */
module DockerfileParser {
  import opened Wrappers
  import opened Text

  /** One successful `exec`: where the keyword starts and where the captured group lies. */
  datatype Match = Match(start: nat, capStart: nat, capEnd: nat)

  /** The end of the run of white space starting at `j`. */
  function SpaceRunEnd(s: string, j: nat): (e: nat)
    requires j <= |s|
    ensures j <= e <= |s|
    ensures forall q :: j <= q < e ==> IsSpace(s[q])
    ensures e < |s| ==> !IsSpace(s[e])
    decreases |s| - j
  {
    if j < |s| && IsSpace(s[j]) then SpaceRunEnd(s, j + 1) else j
  }

  /** The end of the line that position `k` lies on. */
  function LineEnd(s: string, k: nat): (e: nat)
    requires k <= |s|
    ensures k <= e <= |s|
    ensures forall q :: k <= q < e ==> !IsLineTerminator(s[q])
    ensures e < |s| ==> IsLineTerminator(s[e])
    decreases |s| - k
  {
    if k < |s| && !IsLineTerminator(s[k]) then LineEnd(s, k + 1) else k
  }

  /** The last position in `[lo, hi)` that is not a line terminator. */
  function LastNonTerminator(s: string, lo: nat, hi: nat): (k: Option<nat>)
    requires lo <= hi <= |s|
    ensures k.Some? ==> lo <= k.value < hi && !IsLineTerminator(s[k.value])
    ensures k.Some? ==> forall q :: k.value < q < hi ==> IsLineTerminator(s[q])
    ensures k.None? ==> forall q :: lo <= q < hi ==> IsLineTerminator(s[q])
    decreases hi - lo
  {
    if hi == lo then None
    else if !IsLineTerminator(s[hi - 1]) then Some(hi - 1)
    else LastNonTerminator(s, lo, hi - 1)
  }

  /**
   * The captured group of `kw\s+(.+)` when the match starts at `i`, as `(start, end)`.
   * The keyword is followed by at least one white-space character, then the capture: a
   * non-empty run of non-terminators that extends to the end of its line.
   */
  function CaptureAt(s: string, kw: string, i: nat): (r: Option<(nat, nat)>)
    requires i <= |s|
    ensures !StartsWith(s[i..], kw) ==> r.None?
    ensures r.Some? ==> StartsWith(s[i..], kw) && i + |kw| < r.value.0 < r.value.1 <= |s|
    ensures r.Some? ==> forall q :: i + |kw| <= q < r.value.0 ==> IsSpace(s[q])
    ensures r.Some? ==> forall q :: r.value.0 <= q < r.value.1 ==> !IsLineTerminator(s[q])
    ensures r.Some? ==> r.value.1 == |s| || IsLineTerminator(s[r.value.1])
  {
    if !StartsWith(s[i..], kw) then None
    else
      var j := i + |kw|;
      var e := SpaceRunEnd(s, j);
      if e == j then None
      else if e < |s| then Some((e, LineEnd(s, e)))
      else
        match LastNonTerminator(s, j + 1, e)
        case None => None
        case Some(k) => Some((k, k + 1))
  }

  /**
   * When the keyword is at `i`, which of the three outcomes the match there has: none when
   * no white space follows it; the rest of the line after the white space when that run stops
   * before the end of the text; otherwise the last non-terminator of the run, `.+` taking one
   * character, and none when the run holds only line terminators.
   */
  lemma CaptureAtCases(s: string, kw: string, i: nat)
    requires i <= |s| && StartsWith(s[i..], kw)
    ensures i + |kw| == |s| || !IsSpace(s[i + |kw|]) ==> CaptureAt(s, kw, i).None?
    ensures i + |kw| < |s| && IsSpace(s[i + |kw|]) && SpaceRunEnd(s, i + |kw|) < |s| ==>
              CaptureAt(s, kw, i) == Some((SpaceRunEnd(s, i + |kw|), LineEnd(s, SpaceRunEnd(s, i + |kw|))))
    ensures i + |kw| < |s| && SpaceRunEnd(s, i + |kw|) == |s| ==>
              (CaptureAt(s, kw, i).Some? <==> exists q :: i + |kw| < q < |s| && !IsLineTerminator(s[q]))
    ensures i + |kw| < |s| && SpaceRunEnd(s, i + |kw|) == |s| && CaptureAt(s, kw, i).Some? ==>
              var (a, b) := CaptureAt(s, kw, i).value;
              b == a + 1 && forall q :: a < q < |s| ==> IsLineTerminator(s[q])
  {
  }

  /** `exec` from `lastIndex == from`: the leftmost position at or after `from` where the expression matches. */
  function FindMatch(s: string, kw: string, from: nat): (m: Option<Match>)
    requires from <= |s|
    ensures m.Some? ==> from <= m.value.start <= |s|
    ensures m.Some? ==> CaptureAt(s, kw, m.value.start) == Some((m.value.capStart, m.value.capEnd))
    ensures m.Some? ==> forall i :: from <= i < m.value.start ==> CaptureAt(s, kw, i).None?
    ensures m.None? ==> forall i :: from <= i <= |s| ==> CaptureAt(s, kw, i).None?
    decreases |s| - from
  {
    match CaptureAt(s, kw, from)
    case Some((a, b)) => Some(Match(from, a, b))
    case None => if from == |s| then None else FindMatch(s, kw, from + 1)
  }

  /** The captured groups of every match, in order, starting the search at `from`. */
  function Captures(s: string, kw: string, from: nat): seq<string>
    requires from <= |s|
    decreases |s| - from
  {
    match FindMatch(s, kw, from)
    case None => []
    case Some(m) =>
      assert m.capEnd > from;
      [s[m.capStart..m.capEnd]] + Captures(s, kw, m.capEnd)
  }

  // ---------------------------------------------------------------------------
  // tokens of one directive

  /** `pieces.map(p => parseInt(p, 10)).filter(p => !isNaN(p))`. */
  function KeepNumbers(pieces: seq<string>): (r: seq<int>)
    ensures |r| <= |pieces|
    ensures forall k :: 0 <= k < |r| ==> exists j :: 0 <= j < |pieces| && ParseInt(pieces[j]) == Some(r[k])
    ensures forall j :: 0 <= j < |pieces| && ParseInt(pieces[j]).Some? ==> ParseInt(pieces[j]).value in r
  {
    if pieces == [] then []
    else
      var rest := KeepNumbers(pieces[1..]);
      assert forall j :: 1 <= j < |pieces| ==> pieces[j] == pieces[1..][j - 1];
      match ParseInt(pieces[0])
      case Some(v) => [v] + rest
      case None => rest
  }

  /** A single piece is kept as its number exactly when it reads as one. */
  lemma KeepNumbersOne(piece: string)
    ensures KeepNumbers([piece]) == if ParseInt(piece).Some? then [ParseInt(piece).value] else []
  {
    assert [piece][1..] == [];
  }

  /** Filtering keeps the order of the pieces: it distributes over concatenation. */
  lemma {:induction false} KeepNumbersAppend(a: seq<string>, b: seq<string>)
    ensures KeepNumbers(a + b) == KeepNumbers(a) + KeepNumbers(b)
  {
    if a != [] {
      assert (a + b)[0] == a[0];
      assert (a + b)[1..] == a[1..] + b;
      KeepNumbersAppend(a[1..], b);
    } else {
      assert a + b == b;
    }
  }

  /** `pieces.filter(Boolean)`: the non-empty pieces. */
  function KeepNonEmpty(pieces: seq<string>): (r: seq<string>)
    ensures |r| <= |pieces|
    ensures forall k :: 0 <= k < |r| ==> r[k] != [] && r[k] in pieces
    ensures forall j :: 0 <= j < |pieces| && pieces[j] != [] ==> pieces[j] in r
  {
    if pieces == [] then []
    else
      var rest := KeepNonEmpty(pieces[1..]);
      assert forall j :: 1 <= j < |pieces| ==> pieces[j] == pieces[1..][j - 1];
      if pieces[0] != [] then [pieces[0]] + rest else rest
  }

  /** A single piece is kept exactly when it is non-empty. */
  lemma KeepNonEmptyOne(piece: string)
    ensures KeepNonEmpty([piece]) == if piece != [] then [piece] else []
  {
    assert [piece][1..] == [];
  }

  /** Filtering keeps the order of the pieces: it distributes over concatenation. */
  lemma {:induction false} KeepNonEmptyAppend(a: seq<string>, b: seq<string>)
    ensures KeepNonEmpty(a + b) == KeepNonEmpty(a) + KeepNonEmpty(b)
  {
    if a != [] {
      assert (a + b)[0] == a[0];
      assert (a + b)[1..] == a[1..] + b;
      KeepNonEmptyAppend(a[1..], b);
    } else {
      assert a + b == b;
    }
  }

  /** The ports one `EXPOSE` value declares: its space- or comma-separated pieces that read as integers. */
  function ExposeTokens(cap: string): seq<int> {
    KeepNumbers(SplitRuns(cap))
  }

  /**
   * The paths one `VOLUME` value declares. The value is trimmed; a value that starts with
   * "[" and ends with "]" is read as a JSON array of strings (`parseJson`, `None` when it
   * is not one), anything else is split on runs of white space and commas.
   */
  function VolumeTokens(cap: string, parseJson: string -> Option<seq<string>>): seq<string> {
    var v := Trim(cap);
    if StartsWith(v, "[") && EndsWith(v, "]") then
      match parseJson(v)
      case None => []
      case Some(paths) => paths
    else KeepNonEmpty(SplitRuns(v))
  }

  /** The ports of every `EXPOSE` value, in the order they occur. */
  function ExposedPorts(caps: seq<string>): seq<int> {
    if caps == [] then [] else ExposeTokens(caps[0]) + ExposedPorts(caps[1..])
  }

  /** The volumes of every `VOLUME` value, in the order they occur. */
  function DeclaredVolumes(caps: seq<string>, parseJson: string -> Option<seq<string>>): seq<string> {
    if caps == [] then [] else VolumeTokens(caps[0], parseJson) + DeclaredVolumes(caps[1..], parseJson)
  }

  // ---------------------------------------------------------------------------
  // the scanner

  /** The `while (exec(...))` loop over `EXPOSE`: the ports of every value, in order, before de-duplication. */
  method ScanPorts(s: string) returns (raw: seq<int>)
    ensures raw == ExposedPorts(Captures(s, "EXPOSE", 0))
  {
    raw := [];
    var last: nat := 0;
    var m := FindMatch(s, "EXPOSE", last);
    while m.Some?
      invariant last <= |s| && m == FindMatch(s, "EXPOSE", last)
      invariant raw + ExposedPorts(Captures(s, "EXPOSE", last)) == ExposedPorts(Captures(s, "EXPOSE", 0))
      decreases |s| - last
    {
      PortsStep(s, "EXPOSE", last, raw);
      raw := raw + ExposeTokens(s[m.value.capStart..m.value.capEnd]);
      last := m.value.capEnd;
      m := FindMatch(s, "EXPOSE", last);
    }
  }

  /** The `while (exec(...))` loop over `VOLUME`: the volumes of every value, in order, before de-duplication. */
  method ScanVolumes(s: string, parseJson: string -> Option<seq<string>>) returns (raw: seq<string>)
    ensures raw == DeclaredVolumes(Captures(s, "VOLUME", 0), parseJson)
  {
    raw := [];
    var last: nat := 0;
    var m := FindMatch(s, "VOLUME", last);
    while m.Some?
      invariant last <= |s| && m == FindMatch(s, "VOLUME", last)
      invariant raw + DeclaredVolumes(Captures(s, "VOLUME", last), parseJson)
        == DeclaredVolumes(Captures(s, "VOLUME", 0), parseJson)
      decreases |s| - last
    {
      VolumesStep(s, "VOLUME", last, raw, parseJson);
      raw := raw + VolumeTokens(s[m.value.capStart..m.value.capEnd], parseJson);
      last := m.value.capEnd;
      m := FindMatch(s, "VOLUME", last);
    }
  }

  /** The ports of a Dockerfile's text, each once, in the order of first declaration; none when it cannot be read. */
  function DockerfilePorts(content: Option<string>): seq<int> {
    match content
    case None => []
    case Some(s) => Dedup(ExposedPorts(Captures(s, "EXPOSE", 0)))
  }

  /** The volumes of a Dockerfile's text, each once, in the order of first declaration; none when it cannot be read. */
  function DockerfileVolumes(content: Option<string>, parseJson: string -> Option<seq<string>>): seq<string> {
    match content
    case None => []
    case Some(s) => Dedup(DeclaredVolumes(Captures(s, "VOLUME", 0), parseJson))
  }

  /**
   * `parseDockerfile`: `content` is the file's text, `None` when it cannot be read. Both
   * lists hold every declared value once, at its first occurrence.
   */
  method ParseDockerfile(content: Option<string>, parseJson: string -> Option<seq<string>>)
    returns (ports: seq<int>, volumes: seq<string>)
    ensures content.None? ==> ports == [] && volumes == []
    ensures ports == DockerfilePorts(content) && volumes == DockerfileVolumes(content, parseJson)
  {
    if content.None? {
      return [], [];
    }
    var rawPorts := ScanPorts(content.value);
    var rawVolumes := ScanVolumes(content.value, parseJson);
    ports := Dedup(rawPorts);
    volumes := Dedup(rawVolumes);
  }

  /** One `exec` step: a match at or after `from` contributes its capture, and the search resumes at its end. */
  lemma CapturesStep(s: string, kw: string, from: nat)
    requires from <= |s| && FindMatch(s, kw, from).Some?
    ensures var m := FindMatch(s, kw, from).value;
      from < m.capEnd <= |s| && Captures(s, kw, from) == [s[m.capStart..m.capEnd]] + Captures(s, kw, m.capEnd)
  {
  }

  /** The port loop's invariant survives one `exec` step. */
  lemma PortsStep(s: string, kw: string, last: nat, raw: seq<int>)
    requires last <= |s| && FindMatch(s, kw, last).Some?
    ensures var m := FindMatch(s, kw, last).value;
      raw + ExposedPorts(Captures(s, kw, last))
        == (raw + ExposeTokens(s[m.capStart..m.capEnd])) + ExposedPorts(Captures(s, kw, m.capEnd))
  {
    var m := FindMatch(s, kw, last).value;
    CapturesStep(s, kw, last);
    ExposedPortsCons(s[m.capStart..m.capEnd], Captures(s, kw, m.capEnd));
    AppendAssoc(raw, ExposeTokens(s[m.capStart..m.capEnd]), ExposedPorts(Captures(s, kw, m.capEnd)));
  }

  lemma ExposedPortsCons(c: string, rest: seq<string>)
    ensures ExposedPorts([c] + rest) == ExposeTokens(c) + ExposedPorts(rest)
  {
    assert ([c] + rest)[1..] == rest;
  }

  /** The volume loop's invariant survives one `exec` step. */
  lemma VolumesStep(s: string, kw: string, last: nat, raw: seq<string>, parseJson: string -> Option<seq<string>>)
    requires last <= |s| && FindMatch(s, kw, last).Some?
    ensures var m := FindMatch(s, kw, last).value;
      raw + DeclaredVolumes(Captures(s, kw, last), parseJson)
        == (raw + VolumeTokens(s[m.capStart..m.capEnd], parseJson)) + DeclaredVolumes(Captures(s, kw, m.capEnd), parseJson)
  {
    var m := FindMatch(s, kw, last).value;
    CapturesStep(s, kw, last);
    DeclaredVolumesCons(s[m.capStart..m.capEnd], Captures(s, kw, m.capEnd), parseJson);
    AppendAssoc(raw, VolumeTokens(s[m.capStart..m.capEnd], parseJson), DeclaredVolumes(Captures(s, kw, m.capEnd), parseJson));
  }

  lemma DeclaredVolumesCons(c: string, rest: seq<string>, parseJson: string -> Option<seq<string>>)
    ensures DeclaredVolumes([c] + rest, parseJson) == VolumeTokens(c, parseJson) + DeclaredVolumes(rest, parseJson)
  {
    assert ([c] + rest)[1..] == rest;
  }

  lemma AppendAssoc<T>(a: seq<T>, b: seq<T>, c: seq<T>)
    ensures a + (b + c) == (a + b) + c
  {
  }

  // ---------------------------------------------------------------------------
  // properties

  /** A later directive only appends: the values of a text's first directives are a prefix of all of them. */
  lemma {:induction false} ExposedPortsAppend(a: seq<string>, b: seq<string>)
    ensures ExposedPorts(a + b) == ExposedPorts(a) + ExposedPorts(b)
    decreases |a|
  {
    if a != [] {
      assert (a + b)[1..] == a[1..] + b;
      ExposedPortsAppend(a[1..], b);
    } else {
      assert a + b == b;
    }
  }

  lemma {:induction false} DeclaredVolumesAppend(a: seq<string>, b: seq<string>, parseJson: string -> Option<seq<string>>)
    ensures DeclaredVolumes(a + b, parseJson) == DeclaredVolumes(a, parseJson) + DeclaredVolumes(b, parseJson)
    decreases |a|
  {
    if a != [] {
      assert (a + b)[1..] == a[1..] + b;
      DeclaredVolumesAppend(a[1..], b, parseJson);
    } else {
      assert a + b == b;
    }
  }

  /**
   * Both lists of a readable Dockerfile hold every declared value exactly once, in the
   * order of first declaration.
   */
  lemma ParsedListsFirstOccurrences(s: string, parseJson: string -> Option<seq<string>>)
    ensures var raw := ExposedPorts(Captures(s, "EXPOSE", 0));
      var ports := DockerfilePorts(Some(s));
      NoDuplicates(ports) && (forall x :: x in ports <==> x in raw) && InFirstOccurrenceOrder(raw, ports)
    ensures var raw := DeclaredVolumes(Captures(s, "VOLUME", 0), parseJson);
      var volumes := DockerfileVolumes(Some(s), parseJson);
      NoDuplicates(volumes) && (forall x :: x in volumes <==> x in raw) && InFirstOccurrenceOrder(raw, volumes)
  {
    DedupKeepsFirstOccurrenceOrder(ExposedPorts(Captures(s, "EXPOSE", 0)));
    DedupKeepsFirstOccurrenceOrder(DeclaredVolumes(Captures(s, "VOLUME", 0), parseJson));
    DedupSameElements(ExposedPorts(Captures(s, "EXPOSE", 0)));
    DedupSameElements(DeclaredVolumes(Captures(s, "VOLUME", 0), parseJson));
  }

  /** An occurrence of `kw` at any position means the text contains `kw`. */
  lemma {:induction false} OccurrenceIsContained(s: string, kw: string, i: nat)
    requires i <= |s| && StartsWith(s[i..], kw)
    ensures Contains(s, kw)
    decreases i
  {
    if i == 0 {
      assert s[i..] == s;
    } else {
      assert s[1..][i - 1..] == s[i..];
      OccurrenceIsContained(s[1..], kw, i - 1);
    }
  }

  /** A text that does not contain the keyword has no match of the expression. */
  lemma NoKeywordNoCaptures(s: string, kw: string, from: nat)
    requires from <= |s| && !Contains(s, kw)
    ensures Captures(s, kw, from) == []
  {
    var m := FindMatch(s, kw, from);
    if m.Some? {
      OccurrenceIsContained(s, kw, m.value.start);
      assert false;
    }
  }

  /**
   * A keyword, one white-space character (a line break, say: `\s+` crosses it) and a value
   * free of white space: the one capture is the whole value.
   */
  lemma CapturesAfterSpace(kw: string, sp: char, v: string)
    requires kw != [] && IsSpace(sp)
    requires v != [] && forall q :: 0 <= q < |v| ==> !IsSpace(v[q])
    ensures Captures(kw + [sp] + v, kw, 0) == [v]
  {
    var s := kw + [sp] + v;
    var j := |kw|;
    assert s[j + 1..|s|] == v;
    assert s[0..][..j] == kw;
    assert s[j] == sp && s[j + 1] == v[0];
    assert forall q :: j + 1 <= q < |s| ==> s[q] == v[q - j - 1];
    assert SpaceRunEnd(s, j + 1) == j + 1;
    assert SpaceRunEnd(s, j) == j + 1;
    CaptureAtCases(s, kw, 0);
    assert forall q :: j + 1 <= q < |s| ==> !IsLineTerminator(s[q]);
    assert LineEnd(s, j + 1) == |s|;
    assert CaptureAt(s, kw, 0) == Some((j + 1, |s|));
    assert FindMatch(s, kw, 0) == Some(Match(0, j + 1, |s|));
    assert FindMatch(s, kw, |s|).None?;
    CapturesStep(s, kw, 0);
  }

  /** A value such as `8080/tcp` on the line after `EXPOSE` declares the number its leading digits spell. */
  lemma ExposeValueOnNextLine(digits: string, rest: string)
    requires digits != [] && AllDigits(digits)
    requires rest == [] || (!IsDigit(rest[0]) && forall k :: 0 <= k < |rest| ==> !IsSpaceOrComma(rest[k]))
    ensures DockerfilePorts(Some("EXPOSE\n" + digits + rest)) == [DigitsValue(digits) as int]
  {
    var v := digits + rest;
    assert "EXPOSE\n" + digits + rest == "EXPOSE" + ['\n'] + v;
    NumericValueHasNoSeparator(digits, rest);
    CapturesAfterSpace("EXPOSE", '\n', v);
    ExposeReadsNumericPrefix(digits, rest);
    PortsOfOneCapture("EXPOSE" + ['\n'] + v, v, DigitsValue(digits) as int);
  }

  lemma PortsOfOneCapture(s: string, v: string, port: int)
    requires Captures(s, "EXPOSE", 0) == [v] && ExposeTokens(v) == [port]
    ensures DockerfilePorts(Some(s)) == [port]
  {
    ExposedPortsCons(v, []);
    assert ExposedPorts([v]) == [port];
    DedupSingleton(port);
  }

  lemma NumericValueHasNoSeparator(digits: string, rest: string)
    requires AllDigits(digits)
    requires rest == [] || forall k :: 0 <= k < |rest| ==> !IsSpaceOrComma(rest[k])
    ensures forall q :: 0 <= q < |digits + rest| ==> !IsSpaceOrComma((digits + rest)[q])
  {
    forall q | 0 <= q < |digits + rest|
      ensures !IsSpaceOrComma((digits + rest)[q])
    {
      if q < |digits| {
        assert (digits + rest)[q] == digits[q];
        assert IsDigit(digits[q]);
      } else {
        assert (digits + rest)[q] == rest[q - |digits|];
      }
    }
  }

  /** `8080/tcp` exposes port 8080: `parseInt` reads the leading digits and ignores the rest. */
  lemma ExposeReadsNumericPrefix(digits: string, rest: string)
    requires digits != [] && AllDigits(digits)
    requires rest == [] || (!IsDigit(rest[0]) && forall k :: 0 <= k < |rest| ==> !IsSpaceOrComma(rest[k]))
    ensures ExposeTokens(digits + rest) == [DigitsValue(digits) as int]
  {
    var t := digits + rest;
    assert forall k :: 0 <= k < |digits| ==> t[k] == digits[k];
    assert forall j :: 0 <= j < |t| ==> !IsSpaceOrComma(t[j]);
    assert SplitRuns(t) == [t];
    LeadingDigitsOfPrefix(digits, rest);
    TrimStartOfNonSpace(t);
  }

  lemma {:induction false} LeadingDigitsOfPrefix(digits: string, rest: string)
    requires AllDigits(digits)
    requires rest == [] || !IsDigit(rest[0])
    ensures LeadingDigits(digits + rest) == digits
    decreases |digits|
  {
    if digits != [] {
      assert (digits + rest)[1..] == digits[1..] + rest;
      LeadingDigitsOfPrefix(digits[1..], rest);
    } else {
      assert digits + rest == rest;
    }
  }
}
