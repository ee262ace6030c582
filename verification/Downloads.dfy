/** Artefact downloads: one byte range, `If-Range` on the ETag, and clients that resume. */
module Downloads {
  import opened Options
  import opened Decimal

  type Byte = nat

  /** A stored artefact; its ETag quotes the SHA-256. */
  datatype Version = Version(sha256: string, content: seq<Byte>) {
    function Etag(): (e: string)
      ensures e != ""
    {
      "\"sha256:" + sha256 + "\""
    }
  }

  datatype Response =
    | Whole(etag: string, contentLength: int, body: seq<Byte>)
    | Partial(etag: string, contentLength: int, first: nat, last: nat, size: nat, body: seq<Byte>)
    | Unsatisfiable(size: nat)
    | StreamFault

  /** `bytes=N-` or `bytes=N-M`. */
  datatype Range = Range(first: nat, last: Option<nat>)

  predicate IsSpace(c: char) {
    c == ' ' || c == '\t' || c == '\n' || c == '\r' || c == '\U{000B}' || c == '\U{000C}' || c == '\U{00A0}'
  }

  function TrimStart(s: string): string {
    if s != "" && IsSpace(s[0]) then TrimStart(s[1..]) else s
  }

  function TrimEnd(s: string): string {
    if s != "" && IsSpace(s[|s| - 1]) then TrimEnd(s[..|s| - 1]) else s
  }

  function DigitRun(s: string): (n: nat)
    ensures n <= |s| && AllDigits(s[..n]) && (n < |s| ==> !IsDigit(s[n]))
  {
    if s != "" && IsDigit(s[0]) then 1 + DigitRun(s[1..]) else 0
  }

  const PREFIX := "bytes="

  /** `^bytes=(\d+)-(\d*)$` on the trimmed header. */
  function ParseRange(header: string): Option<Range> {
    var s := TrimEnd(TrimStart(header));
    if |s| < 6 || s[..6] != PREFIX then None else
    var rest := s[6..];
    var n := DigitRun(rest);
    if n == 0 || n == |rest| || rest[n] != '-' || !AllDigits(rest[n + 1..]) then None else
    Some(Range(Value(rest[..n]), if n + 1 == |rest| then None else Some(Value(rest[n + 1..]))))
  }

  predicate Given(header: Option<string>) {
    header.Some? && header.value != ""
  }

  /** The range a request is served by, if any: present, well-formed, and of the version it was meant for. */
  function Effective(v: Version, range: Option<string>, ifRange: Option<string>): Option<Range> {
    if Given(range) && (Given(ifRange) ==> ifRange.value == v.Etag()) then ParseRange(range.value) else None
  }

  /** The last byte a range asks for: at most the file's last (section 14.1.2 of RFC 9110). */
  function LastByte(asked: Range, size: nat): int {
    if asked.last.Some? && asked.last.value < size then asked.last.value else size - 1
  }

  /** The range decision of the download handler. */
  method Download(v: Version, range: Option<string>, ifRange: Option<string>) returns (r: Response)
    ensures var asked := Effective(v, range, ifRange);
            (asked.None? && v.content != [] ==> r == Whole(v.Etag(), |v.content|, v.content)) &&
            (asked.None? && v.content == [] ==> r == StreamFault) &&
            (asked.Some? ==>
               var first, last := asked.value.first, LastByte(asked.value, |v.content|);
               r == if first <= last then Partial(v.Etag(), last - first + 1, first, last, |v.content|, v.content[first..last + 1])
                    else Unsatisfiable(|v.content|))
  {
    var size := |v.content|;
    var first, last, partial := 0, size - 1, false;
    if range.Some? && range.value != "" && (ifRange.None? || ifRange.value == "" || ifRange.value == v.Etag()) {
      var parsed := ParseRange(range.value);
      if parsed.Some? {
        first := parsed.value.first;
        if parsed.value.last.Some? {
          last := if parsed.value.last.value < size - 1 then parsed.value.last.value else size - 1;
        }
        if first >= size || first > last {
          return Unsatisfiable(size);
        }
        partial := true;
      }
    }
    if last < 0 {
      return StreamFault;
    }
    var body := v.content[first..last + 1];
    r := if partial then Partial(v.Etag(), last - first + 1, first, last, size, body)
         else Whole(v.Etag(), last - first + 1, body);
  }

  /** Which requests are answered without a range: no header, one for another version, or one that is no range. */
  lemma EffectiveIff(v: Version, range: Option<string>, ifRange: Option<string>)
    ensures Effective(v, range, ifRange).None? <==>
            range.None? || range.value == "" || ParseRange(range.value).None? ||
            (ifRange.Some? && ifRange.value != "" && ifRange.value != v.Etag())
    ensures Effective(v, range, ifRange).Some? ==> Effective(v, range, ifRange) == ParseRange(range.value)
  {
  }

  /** The ETag tells versions apart as their hashes do. */
  lemma EtagsDiffer(a: Version, b: Version)
    ensures a.Etag() == b.Etag() <==> a.sha256 == b.sha256
  {
    var opening, x, y := "\"sha256:", a.Etag(), b.Etag();
    assert x[|opening|..|x| - 1] == a.sha256 && y[|opening|..|y| - 1] == b.sha256;
  }

  // ── which headers name a range ─────────────────────────────────────────

  ghost predicate Blank(s: string) {
    forall i :: 0 <= i < |s| ==> IsSpace(s[i])
  }

  lemma {:induction false} TrimmedStart(s: string) returns (left: string)
    ensures s == left + TrimStart(s) && Blank(left)
  {
    left := "";
    if s != "" && IsSpace(s[0]) {
      var more := TrimmedStart(s[1..]);
      left := [s[0]] + more;
      assert s == [s[0]] + s[1..] && left + TrimStart(s) == [s[0]] + (more + TrimStart(s));
    }
  }

  lemma {:induction false} TrimmedEnd(s: string) returns (right: string)
    ensures s == TrimEnd(s) + right && Blank(right)
  {
    right := "";
    if s != "" && IsSpace(s[|s| - 1]) {
      var c, last := s[..|s| - 1], s[|s| - 1];
      var more := TrimmedEnd(c);
      right := more + [last];
      assert s == c + [last] && TrimEnd(s) == TrimEnd(c);
      assert TrimEnd(c) + more + [last] == TrimEnd(c) + right;
    }
  }

  lemma {:induction false} TrimStartOf(left: string, s: string)
    requires Blank(left) && s != "" && !IsSpace(s[0])
    ensures TrimStart(left + s) == s
  {
    if left == "" {
      assert left + s == s;
    } else {
      assert (left + s)[1..] == left[1..] + s;
      TrimStartOf(left[1..], s);
    }
  }

  lemma {:induction false} TrimEndOf(s: string, right: string)
    requires Blank(right) && s != "" && !IsSpace(s[|s| - 1])
    ensures TrimEnd(s + right) == s
  {
    if right == "" {
      assert s + right == s;
    } else {
      assert (s + right)[..|s + right| - 1] == s + right[..|right| - 1];
      TrimEndOf(s, right[..|right| - 1]);
    }
  }

  /** `bytes=<first>-<last>`, the last position perhaps left out. */
  function RangeText(first: string, last: string): string {
    PREFIX + first + "-" + last
  }

  lemma RangeTextParses(first: string, last: string)
    requires AllDigits(first) && first != "" && AllDigits(last)
    ensures var s := RangeText(first, last);
            |s| >= 6 && s[..6] == PREFIX && s[6..] == first + "-" + last && DigitRun(s[6..]) == |first| &&
            s[6..][..|first|] == first && s[6..][|first| + 1..] == last &&
            !IsSpace(s[0]) && !IsSpace(s[|s| - 1])
  {
    var s := RangeText(first, last);
    assert s[6..] == first + "-" + last;
    assert first + "-" + last == first + ("-" + last);
    DigitRunStops(first, "-" + last);
    assert s[|s| - 1] == if last == "" then '-' else last[|last| - 1];
  }

  /** A header of this form, with space around it, is the range of its two numbers. */
  lemma HeaderParses(left: string, first: string, last: string, right: string)
    requires Blank(left) && Blank(right) && AllDigits(first) && first != "" && AllDigits(last)
    ensures ParseRange(left + RangeText(first, last) + right)
            == Some(Range(Value(first), if last == "" then None else Some(Value(last))))
  {
    var s := RangeText(first, last);
    RangeTextParses(first, last);
    assert left + s + right == left + (s + right);
    TrimStartOf(left, s + right);
    TrimEndOf(s, right);
  }

  lemma RangeSplits(s: string) returns (first: string, last: string)
    requires |s| >= 6 && s[..6] == PREFIX
    requires var rest := s[6..]; var n := DigitRun(rest); 0 < n < |rest| && rest[n] == '-' && AllDigits(rest[n + 1..])
    ensures s == RangeText(first, last) && AllDigits(first) && first != "" && AllDigits(last)
  {
    var rest := s[6..];
    first, last := rest[..DigitRun(rest)], rest[DigitRun(rest) + 1..];
    assert rest == first + "-" + last;
    assert s == PREFIX + rest;
  }

  /** And no other header is a range. */
  lemma OnlyRangesParse(header: string) returns (left: string, first: string, last: string, right: string)
    requires ParseRange(header).Some?
    ensures header == left + RangeText(first, last) + right
    ensures Blank(left) && Blank(right) && AllDigits(first) && first != "" && AllDigits(last)
  {
    left := TrimmedStart(header);
    right := TrimmedEnd(TrimStart(header));
    first, last := RangeSplits(TrimEnd(TrimStart(header)));
    assert left + (RangeText(first, last) + right) == left + RangeText(first, last) + right;
  }

  /** A bounded range as a client prints it. */
  function BoundedHeader(k: nat, m: nat): string {
    PREFIX + Digits(k) + "-" + Digits(m)
  }

  lemma BoundedHeaderParses(k: nat, m: nat)
    ensures ParseRange(BoundedHeader(k, m)) == Some(Range(k, Some(m)))
  {
    ParseDigits(k);
    ParseDigits(m);
    HeaderParses("", Digits(k), Digits(m), "");
    assert "" + RangeText(Digits(k), Digits(m)) + "" == BoundedHeader(k, m);
  }

  /** `bytes=k-m` is answered by the bytes from k up to and including m, or to the end of a shorter file. */
  method BoundedDownload(v: Version, k: nat, m: nat) returns (r: Response)
    requires k <= m
    ensures r.Partial? <==> k < |v.content|
    ensures r.Partial? ==>
              r.first == k && r.last == (if m < |v.content| then m else |v.content| - 1) && r.size == |v.content| &&
              r.contentLength == r.last - k + 1 == |r.body| && forall i :: 0 <= i < |r.body| ==> r.body[i] == v.content[k + i]
    ensures !r.Partial? ==> r == Unsatisfiable(|v.content|)
  {
    BoundedHeaderParses(k, m);
    r := Download(v, Some(BoundedHeader(k, m)), None);
  }

  // ── the headers a resuming client sends ────────────────────────────────

  function ResumeHeader(k: nat): string {
    PREFIX + Digits(k) + "-"
  }

  lemma {:induction false} DigitRunStops(digits: string, rest: string)
    requires AllDigits(digits) && rest != "" && !IsDigit(rest[0])
    ensures DigitRun(digits + rest) == |digits|
  {
    if digits == "" {
      assert digits + rest == rest;
    } else {
      assert (digits + rest)[1..] == digits[1..] + rest;
      DigitRunStops(digits[1..], rest);
    }
  }

  /** `bytes=k-` is read back as "from k to the end". */
  lemma ResumeHeaderParses(k: nat)
    ensures ParseRange(ResumeHeader(k)) == Some(Range(k, None))
  {
    ParseDigits(k);
    HeaderParses("", Digits(k), "", "");
    assert "" + RangeText(Digits(k), "") + "" == ResumeHeader(k);
  }

  /** A range that ends before it starts is refused; section 14.2 of RFC 9110 lets a server ignore or reject it. */
  method InvertedRangeIsRefused(v: Version, k: nat, m: nat) returns (r: Response)
    requires m < k
    ensures r == Unsatisfiable(|v.content|)
  {
    BoundedHeaderParses(k, m);
    r := Download(v, Some(BoundedHeader(k, m)), None);
  }

  // ── resumed downloads ──────────────────────────────────────────────────

  /** What a client has so far, and of which version. */
  datatype Client = Client(got: seq<Byte>, etag: Option<string>, complete: bool)

  const FRESH := Client([], None, false)

  /** SHA-256 tells contents apart. */
  ghost predicate HashesTell(versions: seq<Version>) {
    forall i, j :: 0 <= i < |versions| && 0 <= j < |versions| && versions[i].sha256 == versions[j].sha256 ==>
      versions[i].content == versions[j].content
  }

  /** The client holds the beginning of the version its ETag names. */
  ghost predicate HoldsPrefix(c: Client, v: Version) {
    c.etag == Some(v.Etag()) && c.got <= v.content && (c.complete ==> c.got == v.content)
  }

  ghost predicate Consistent(c: Client, versions: seq<Version>, n: nat)
    requires n <= |versions|
  {
    (c.etag.None? ==> c.got == [] && !c.complete) &&
    (c.etag.Some? ==> exists i :: 0 <= i < n && HoldsPrefix(c, versions[i]))
  }

  function Cut(body: seq<Byte>, n: nat): seq<Byte> {
    if n < |body| then body[..n] else body
  }

  function Least(a: nat, b: nat): nat {
    if a <= b then a else b
  }

  /**
   * One request: `v` is on the server now, and the connection breaks after `cut` bytes of the body. With the ETag
   * of `v` the client goes on where it was, else it starts over; an empty file gives it nothing.
   */
  method Request(c: Client, v: Version, cut: nat) returns (c': Client)
    requires !c.complete && c.etag != Some("")
    ensures v.content == [] && (c.etag != Some(v.Etag()) || c.got == []) ==> c' == c
    ensures v.content != [] && (c.etag != Some(v.Etag()) || c.got == []) ==>
              c' == Client(v.content[..Least(cut, |v.content|)], Some(v.Etag()), cut >= |v.content|)
    ensures c.etag == Some(v.Etag()) && c.got != [] && c.got <= v.content ==>
              c' == Client(v.content[..Least(|c.got| + cut, |v.content|)], c.etag, |c.got| + cut >= |v.content|)
  {
    var range := if c.got == [] || c.etag.None? then None else Some(ResumeHeader(|c.got|));
    ResumeHeaderParses(|c.got|);
    var r := Download(v, range, c.etag);
    EffectiveIff(v, range, c.etag);
    match r {
      case Whole(etag, contentLength, body) =>
        c' := Client(Cut(body, cut), Some(etag), cut >= contentLength);
      case Partial(_, contentLength, _, _, _, body) =>
        c' := c.(got := c.got + Cut(body, cut), complete := cut >= contentLength);
      case Unsatisfiable(_) =>
        c' := c.(complete := true);
      case StreamFault =>
        c' := c;
    }
  }

  lemma StillConsistent(c: Client, v: Version, versions: seq<Version>, i: nat, cut: nat, c': Client)
    requires i < |versions| && versions[i] == v && !c.complete && Consistent(c, versions, i) && HashesTell(versions)
    requires v.content == [] && (c.etag != Some(v.Etag()) || c.got == []) ==> c' == c
    requires v.content != [] && (c.etag != Some(v.Etag()) || c.got == []) ==>
               c' == Client(v.content[..Least(cut, |v.content|)], Some(v.Etag()), cut >= |v.content|)
    requires c.etag == Some(v.Etag()) && c.got != [] && c.got <= v.content ==>
               c' == Client(v.content[..Least(|c.got| + cut, |v.content|)], c.etag, |c.got| + cut >= |v.content|)
    ensures Consistent(c', versions, i + 1)
    ensures c'.complete ==> HoldsPrefix(c', v)
    ensures v.content != [] ==> HoldsPrefix(c', v)
  {
    if c.etag.Some? {
      var j :| 0 <= j < i && HoldsPrefix(c, versions[j]);
      EtagsDiffer(versions[j], v);
      if c.etag == Some(v.Etag()) && c.got != [] {
        assert versions[j].content == v.content;
        assert HoldsPrefix(c', v);
      } else if v.content == [] {
        assert HoldsPrefix(c', versions[j]);
      }
    }
  }

  /**
   * A client that resumes with `If-Range` through any interruptions and replacements: after every request it
   * holds a prefix of one single version, the one its ETag names, and when it is complete exactly the version
   * the last request was answered with. A request that is not cut short completes it.
   */
  method Resume(versions: seq<Version>, cuts: seq<nat>) returns (c: Client, requests: nat)
    requires |cuts| == |versions| && HashesTell(versions)
    ensures requests <= |versions| && Consistent(c, versions, requests)
    ensures c.complete ==> requests > 0 && c.got == versions[requests - 1].content
    ensures !c.complete ==> requests == |versions|
    ensures !c.complete ==> forall i :: 0 <= i < |versions| && versions[i].content != [] ==> cuts[i] < |versions[i].content|
  {
    c, requests := FRESH, 0;
    while requests < |versions| && !c.complete
      invariant requests <= |versions| && Consistent(c, versions, requests)
      invariant c.complete ==> requests > 0 && c.got == versions[requests - 1].content
      invariant !c.complete ==> forall i :: 0 <= i < requests && versions[i].content != [] ==> cuts[i] < |versions[i].content|
    {
      var v, cut := versions[requests], cuts[requests];
      ghost var before := c;
      if before.etag == Some(v.Etag()) {
        ghost var j :| 0 <= j < requests && HoldsPrefix(before, versions[j]);
        EtagsDiffer(versions[j], v);
        assert versions[j].content == v.content;
      }
      c := Request(c, v, cut);
      StillConsistent(before, v, versions, requests, cut, c);
      requests := requests + 1;
    }
  }

  /** The same client without `If-Range` mixes two versions. */
  method MixedWithoutIfRange() returns (assembled: seq<Byte>)
    ensures assembled == [1, 4]
    ensures !(assembled <= [1, 2]) && !(assembled <= [3, 4])
  {
    var before, after := Version("a", [1, 2]), Version("b", [3, 4]);
    var r := Download(before, None, None);
    assembled := Cut(r.body, 1);
    ResumeHeaderParses(1);
    r := Download(after, Some(ResumeHeader(1)), None);
    assembled := assembled + r.body;
    assert assembled[0] != [3, 4][0] && assembled[1] != [1, 2][1];
  }
}
