/** `TargetDescriptor`: the leaf of a descriptor tree, one service URL with a
    total, a connection and a socket time-out and the CRC-32 checksum of the
    URL. A value type: all its fields are final. */
module TargetDescriptors {
  import opened Wrappers
  import opened Strings
  import opened Checksum

  /** The time-out used by the one-argument constructor, in milliseconds. */
  const DEFAULT_TIMEOUT: Int32 := 5000

  /** URL schemes that must come with a non-empty host. */
  const PROTOCOLS_REQUIRING_HOST: set<string> :=
    {"http", "https", "ftp", "sftp", "smtp", "smtps", "gopher"}

  datatype TargetDescriptor = TargetDescriptor(
    instanceNumber: int,
    url: string,
    totalTimeOut: Int32,
    connectionTimeOut: Int32,
    socketTimeOut: Int32,
    crc: Int32)

  /** The exceptions a constructor throws: `IllegalArgumentException` for a
      null argument, `MalformedURLException` for a rejected URL. */
  datatype ConstructionError = NullArgument(name: string) | MalformedURL(url: string)

  /** What `new java.net.URI(s)` yields: a syntax error, or the parsed URI's
      `isAbsolute()`, `getScheme()` and `getHost()`. The parser itself is a
      parameter of the model. */
  datatype UriParse =
    | Unparseable
    | Parsed(isAbsolute: bool, scheme: Option<string>, host: Option<string>)

  type UriParser = string -> UriParse

  /** `Library.isEmpty`: null or of length zero. */
  predicate IsEmpty(s: Option<string>)
  {
    s.None? || s.value == ""
  }

  /** The direct test of `testURL`: an absolute URI, with a host when its
      scheme requires one. */
  predicate AcceptedAsUri(p: UriParse)
  {
    && p.Parsed?
    && p.isAbsolute
    && !(p.scheme.Some? && p.scheme.value in PROTOCOLS_REQUIRING_HOST && IsEmpty(p.host))
  }

  /** The text after the first ':', when there is one and it is not the
      first character: what the sub-protocol fallback of `testURL` tests. */
  function SubProtocolRest(url: string): (rest: Option<string>)
    ensures rest.Some? ==> |rest.value| < |url|
  {
    var i := IndexOf(url, ":");
    if i > 0 then Some(url[i + 1..]) else None
  }

  /** The URLs `testURL` accepts. */
  predicate ValidUrl(parse: UriParser, url: string)
    decreases |url|
  {
    || AcceptedAsUri(parse(url))
    || (var rest := SubProtocolRest(url); rest.Some? && ValidUrl(parse, rest.value))
  }

  /** `testURL`: the URL is considered valid until an error is detected;
      after an error the text past the first ':' is tested recursively, and
      the URL is malformed only if that also fails. */
  method TestURL(parse: UriParser, url: Option<string>) returns (r: Outcome<ConstructionError>)
    ensures url.None? ==> r == Fail(NullArgument("url"))
    ensures url.Some? ==> (r.Pass? <==> ValidUrl(parse, url.value))
    ensures url.Some? && r.Fail? ==> r.error == MalformedURL(url.value)
    decreases if url.Some? then |url.value| else 0
  {
    if url.None? {
      return Fail(NullArgument("url"));
    }
    var s := url.value;
    var error := false;
    var uri := parse(s);
    if uri.Unparseable? {
      error := true;
    } else {
      error := !uri.isAbsolute;
      if !error {
        if uri.scheme.Some? && uri.scheme.value in PROTOCOLS_REQUIRING_HOST && IsEmpty(uri.host) {
          error := true;
        }
      }
    }
    assert error <==> !AcceptedAsUri(uri);
    if error {
      var i := IndexOf(s, ":");
      if i > 0 {
        assert SubProtocolRest(s) == Some(s[i + 1..]);
        var sub := TestURL(parse, Some(s[i + 1..]));
        if sub.Pass? {
          error := false;
        }
      }
    }
    if error {
      return Fail(MalformedURL(s));
    }
    return Pass;
  }

  /** The strings `testURL` examines for `url`, in order: the URL itself and
      each text left after stripping through the first ':'. */
  function StripChain(url: string): (chain: seq<string>)
    ensures |chain| >= 1 && chain[0] == url
    decreases |url|
  {
    var rest := SubProtocolRest(url);
    if rest.None? then [url] else [url] + StripChain(rest.value)
  }

  /** A string of the strip chain that parses as an acceptable URI makes
      the URL valid. */
  lemma {:induction false} StripAcceptedMakesValid(parse: UriParser, url: string, k: nat)
    requires k < |StripChain(url)| && AcceptedAsUri(parse(StripChain(url)[k]))
    ensures ValidUrl(parse, url)
    decreases |url|
  {
    if k > 0 {
      var rest := SubProtocolRest(url);
      assert StripChain(url) == [url] + StripChain(rest.value);
      StripAcceptedMakesValid(parse, rest.value, k - 1);
    }
  }

  /** A valid URL has a string in its strip chain that parses as an
      acceptable URI; the first such index is returned. */
  lemma {:induction false} ValidHasAcceptedStrip(parse: UriParser, url: string) returns (k: nat)
    requires ValidUrl(parse, url)
    ensures k < |StripChain(url)| && AcceptedAsUri(parse(StripChain(url)[k]))
    decreases |url|
  {
    if AcceptedAsUri(parse(url)) {
      k := 0;
    } else {
      var rest := SubProtocolRest(url);
      assert StripChain(url) == [url] + StripChain(rest.value);
      var j := ValidHasAcceptedStrip(parse, rest.value);
      k := j + 1;
    }
  }

  /** A URL is accepted exactly when one of the strings of its strip chain
      parses as an acceptable absolute URI. */
  lemma ValidUrlIffSomeStripAccepted(parse: UriParser, url: string)
    ensures ValidUrl(parse, url) <==>
      exists k | 0 <= k < |StripChain(url)| :: AcceptedAsUri(parse(StripChain(url)[k]))
  {
    forall k | 0 <= k < |StripChain(url)| && AcceptedAsUri(parse(StripChain(url)[k]))
      ensures ValidUrl(parse, url)
    {
      StripAcceptedMakesValid(parse, url, k);
    }
    if ValidUrl(parse, url) {
      var k := ValidHasAcceptedStrip(parse, url);
    }
  }

  /** A composite scheme such as `jdbc:mysql://...` is tolerated: a URL
      whose text after a leading colon-free, non-empty prefix is valid is
      valid itself. */
  lemma SubProtocolTolerated(parse: UriParser, prefix: string, rest: string)
    requires prefix != []
    requires forall i | 0 <= i < |prefix| :: prefix[i] != ':'
    requires ValidUrl(parse, rest)
    ensures ValidUrl(parse, prefix + ":" + rest)
  {
    var url := prefix + ":" + rest;
    var i := IndexOf(url, ":");
    assert OccursAt(url, ":", |prefix|);
    forall j | 0 <= j < |prefix|
      ensures !OccursAt(url, ":", j)
    {
      assert url[j] == prefix[j];
    }
    assert i == |prefix|;
    assert url[i + 1..] == rest;
  }

  /** The fallback can accept a URL whose own scheme requires a host it
      lacks: `http:mailto:x` passes when `mailto:x` parses as an absolute
      URI, although `http` is a host-requiring scheme. */
  lemma HostlessUrlAcceptedThroughFallback(parse: UriParser)
    requires parse("http:mailto:x") == Parsed(true, Some("http"), None)
    requires parse("mailto:x") == Parsed(true, Some("mailto"), None)
    ensures !AcceptedAsUri(parse("http:mailto:x"))
    ensures ValidUrl(parse, "http:mailto:x")
  {
    assert "mailto" !in PROTOCOLS_REQUIRING_HOST;
    SubProtocolTolerated(parse, "http", "mailto:x");
    assert "http" + ":" + "mailto:x" == "http:mailto:x";
  }

  /** A connection or socket time-out argument, normalised against the
      normalised total time-out: a non-positive value becomes the total, and
      the result is capped at the total. */
  function NormalisedPart(x: Int32, total: Int32): (r: Int32)
    requires total >= 0
    ensures total > 0 ==> 1 <= r <= total
    ensures total == 0 ==> r == 0
    ensures x <= 0 ==> r == total
    ensures 0 < x <= total ==> r == x
    ensures x > total ==> r == total
  {
    var y := if x > 0 then x else total;
    if y < total then y else total
  }

  /** The invariant every constructed descriptor keeps. The connection and
      socket time-outs lie in [1, total] when a total time-out is set, and
      are 0 when it is not. */
  predicate Valid(t: TargetDescriptor)
    ensures Valid(t) ==> 0 <= t.connectionTimeOut <= t.totalTimeOut && 0 <= t.socketTimeOut <= t.totalTimeOut
  {
    && t.crc == UrlChecksum(t.url)
    && t.totalTimeOut >= 0
    && (t.totalTimeOut > 0 ==>
          1 <= t.connectionTimeOut <= t.totalTimeOut && 1 <= t.socketTimeOut <= t.totalTimeOut)
    && (t.totalTimeOut == 0 ==> t.connectionTimeOut == 0 && t.socketTimeOut == 0)
  }

  /** The four-argument constructor. `instanceNumber` is the value the
      global instance counter had after its increment. */
  function New(parse: UriParser, instanceNumber: int, url: Option<string>,
               timeOut: Int32, connectionTimeOut: Int32, socketTimeOut: Int32)
    : (r: Result<TargetDescriptor, ConstructionError>)
    ensures url.None? ==> r == Failure(NullArgument("url"))
    ensures url.Some? ==> (r.Success? <==> ValidUrl(parse, url.value))
    ensures url.Some? && r.Failure? ==> r.error == MalformedURL(url.value)
    ensures r.Success? ==> Valid(r.value)
    ensures r.Success? ==> r.value.url == url.value && r.value.instanceNumber == instanceNumber
    ensures r.Success? && timeOut > 0 ==> r.value.totalTimeOut == timeOut
    ensures r.Success? && timeOut <= 0 ==> r.value.totalTimeOut == 0
    ensures r.Success? && 0 < connectionTimeOut <= timeOut ==> r.value.connectionTimeOut == connectionTimeOut
    ensures r.Success? && 0 < socketTimeOut <= timeOut ==> r.value.socketTimeOut == socketTimeOut
    ensures r.Success? && connectionTimeOut <= 0 ==> r.value.connectionTimeOut == r.value.totalTimeOut
    ensures r.Success? && socketTimeOut <= 0 ==> r.value.socketTimeOut == r.value.totalTimeOut
    ensures r.Success? && connectionTimeOut > r.value.totalTimeOut ==> r.value.connectionTimeOut == r.value.totalTimeOut
    ensures r.Success? && socketTimeOut > r.value.totalTimeOut ==> r.value.socketTimeOut == r.value.totalTimeOut
    ensures r.Success? ==>
      && r.value.connectionTimeOut == NormalisedPart(connectionTimeOut, r.value.totalTimeOut)
      && r.value.socketTimeOut == NormalisedPart(socketTimeOut, r.value.totalTimeOut)
  {
    if url.None? then Failure(NullArgument("url"))
    else if !ValidUrl(parse, url.value) then Failure(MalformedURL(url.value))
    else
      var total: Int32 := if timeOut > 0 then timeOut else 0;
      Success(TargetDescriptor(
        instanceNumber,
        url.value,
        total,
        NormalisedPart(connectionTimeOut, total),
        NormalisedPart(socketTimeOut, total),
        UrlChecksum(url.value)))
  }

  /** The invariant holds of exactly the descriptors the constructor
      builds: a valid descriptor is what the constructor makes of its own
      URL and time-outs, and every descriptor built is valid. */
  lemma ValidIffConstructed(parse: UriParser, t: TargetDescriptor)
    requires ValidUrl(parse, t.url)
    ensures Valid(t) <==>
      New(parse, t.instanceNumber, Some(t.url), t.totalTimeOut, t.connectionTimeOut, t.socketTimeOut) == Success(t)
  {
    var r := New(parse, t.instanceNumber, Some(t.url), t.totalTimeOut, t.connectionTimeOut, t.socketTimeOut);
    if Valid(t) {
      assert r.value.totalTimeOut == t.totalTimeOut;
      assert r.value.connectionTimeOut == t.connectionTimeOut;
      assert r.value.socketTimeOut == t.socketTimeOut;
    }
  }

  /** The one-argument constructor: all three time-outs are 5000 ms. */
  function NewWithDefaultTimeOuts(parse: UriParser, instanceNumber: int, url: Option<string>)
    : (r: Result<TargetDescriptor, ConstructionError>)
    ensures url.Some? ==> (r.Success? <==> ValidUrl(parse, url.value))
    ensures url.None? ==> r.Failure?
    ensures r.Success? ==>
      && Valid(r.value)
      && r.value.totalTimeOut == DEFAULT_TIMEOUT
      && r.value.connectionTimeOut == DEFAULT_TIMEOUT
      && r.value.socketTimeOut == DEFAULT_TIMEOUT
  {
    New(parse, instanceNumber, url, DEFAULT_TIMEOUT, DEFAULT_TIMEOUT, DEFAULT_TIMEOUT)
  }

  /** The two-argument constructor: all three time-outs equal the
      normalised total. */
  function NewWithTimeOut(parse: UriParser, instanceNumber: int, url: Option<string>, timeOut: Int32)
    : (r: Result<TargetDescriptor, ConstructionError>)
    ensures url.Some? ==> (r.Success? <==> ValidUrl(parse, url.value))
    ensures url.None? ==> r.Failure?
    ensures r.Success? ==>
      && Valid(r.value)
      && r.value.totalTimeOut == (if timeOut > 0 then timeOut else 0)
      && r.value.connectionTimeOut == r.value.totalTimeOut
      && r.value.socketTimeOut == r.value.totalTimeOut
  {
    New(parse, instanceNumber, url, timeOut, timeOut, timeOut)
  }

  /** The three-argument constructor: the socket time-out equals the
      normalised total. */
  function NewWithConnectionTimeOut(parse: UriParser, instanceNumber: int, url: Option<string>,
                                    timeOut: Int32, connectionTimeOut: Int32)
    : (r: Result<TargetDescriptor, ConstructionError>)
    ensures url.Some? ==> (r.Success? <==> ValidUrl(parse, url.value))
    ensures url.None? ==> r.Failure?
    ensures r.Success? ==>
      && Valid(r.value)
      && r.value.totalTimeOut == (if timeOut > 0 then timeOut else 0)
      && r.value.connectionTimeOut == NormalisedPart(connectionTimeOut, r.value.totalTimeOut)
      && r.value.socketTimeOut == r.value.totalTimeOut
  {
    New(parse, instanceNumber, url, timeOut, connectionTimeOut, timeOut)
  }

  /** `getProtocol()`: the part of the URL before the first "://". Without
      a "://", `substring(0, -1)` throws `StringIndexOutOfBoundsException`,
      modelled as a failure carrying the offending index. */
  function GetProtocol(t: TargetDescriptor): (r: Result<string, int>)
    ensures r.Success? <==> exists i :: OccursAt(t.url, "://", i)
    ensures r.Success? ==>
      && |r.value| <= |t.url|
      && t.url[..|r.value|] == r.value
      && OccursAt(t.url, "://", |r.value|)
      && (forall j | 0 <= j < |r.value| :: !OccursAt(t.url, "://", j))
  {
    var index := IndexOf(t.url, "://");
    if index < 0 then Failure(index) else Success(t.url[..index])
  }

  /** `getProtocol()` keeps a composite scheme whole. */
  lemma ProtocolOfCompositeScheme(t: TargetDescriptor)
    requires t.url == "jdbc:mysql://we.are.the.b.org/mydb/"
    ensures GetProtocol(t) == Success("jdbc:mysql")
  {
    var url := t.url;
    assert url[10] == ':';
    assert url[11] == '/';
    assert url[12] == '/';
    assert url[10..13] == "://";
    assert OccursAt(url, "://", 10);
    NoSeparatorInScheme(url);
    assert IndexOf(url, "://") == 10;
    assert url[..10] == "jdbc:mysql";
  }

  /** No "://" starts within the first ten characters of the example URL. */
  lemma NoSeparatorInScheme(url: string)
    requires url == "jdbc:mysql://we.are.the.b.org/mydb/"
    ensures forall j | 0 <= j < 10 :: !OccursAt(url, "://", j)
  {
    forall j | 0 <= j < 10
      ensures !OccursAt(url, "://", j)
    {
      assert url[j + 1] != '/';
      assert url[j..j + 3][1] == url[j + 1];
    }
  }

  /** `isGroup()` of a leaf. */
  function IsGroup(t: TargetDescriptor): (r: bool)
    ensures !r
  {
    false
  }

  /** `targets()` of a leaf: the singleton of the leaf itself. */
  function Targets(t: TargetDescriptor): (r: seq<TargetDescriptor>)
    ensures |r| == 1 && t in r
  {
    [t]
  }

  /** `getTargetCount()` of a leaf. */
  function GetTargetCount(t: TargetDescriptor): (n: int)
    ensures n == |Targets(t)|
  {
    1
  }

  /** `getTargetByCRC(crc)` of a leaf: the leaf itself when the checksums
      match, null otherwise. */
  function GetTargetByCRC(t: TargetDescriptor, crc: int): (r: Option<TargetDescriptor>)
    ensures r.Some? <==> t.crc == crc
    ensures r.Some? ==> r.value == t
  {
    if t.crc == crc then Some(t) else None
  }

  /** `hashCode()`: the CRC-32 checksum of the URL. */
  function HashCode(t: TargetDescriptor): (h: int)
    requires Valid(t)
    ensures h == UrlChecksum(t.url)
  {
    t.crc
  }

  /** `equals(obj)`; `obj` is `None` when it is null or not a
      `TargetDescriptor`. The instance number takes no part. */
  function Equals(t: TargetDescriptor, obj: Option<TargetDescriptor>): (r: bool)
    ensures obj.None? ==> !r
    ensures obj == Some(t) ==> r
    ensures r ==> obj.value.url == t.url && obj.value.totalTimeOut == t.totalTimeOut
    ensures r <==> (
      && obj.Some?
      && obj.value.url == t.url
      && obj.value.totalTimeOut == t.totalTimeOut
      && obj.value.connectionTimeOut == t.connectionTimeOut
      && obj.value.socketTimeOut == t.socketTimeOut)
  {
    && obj.Some?
    && t.url == obj.value.url
    && t.totalTimeOut == obj.value.totalTimeOut
    && t.connectionTimeOut == obj.value.connectionTimeOut
    && t.socketTimeOut == obj.value.socketTimeOut
  }

  /** `equals` is an equivalence relation on target descriptors, no
      descriptor equals null or an object of another class, and equal
      descriptors have equal hash codes. */
  lemma EqualsIsEquivalence(a: TargetDescriptor, b: TargetDescriptor, c: TargetDescriptor)
    ensures Equals(a, Some(a))
    ensures !Equals(a, None)
    ensures Equals(a, Some(b)) <==> Equals(b, Some(a))
    ensures Equals(a, Some(b)) && Equals(b, Some(c)) ==> Equals(a, Some(c))
    ensures Valid(a) && Valid(b) && Equals(a, Some(b)) ==> HashCode(a) == HashCode(b)
  {
  }

  /** How `toString()` renders one time-out. */
  function TimeOutText(timeOut: int): string
  {
    if timeOut < 1 then "disabled" else IntToDecimal(timeOut) + " ms"
  }

  /** A time-out is rendered as "disabled" exactly when it is below 1, and
      otherwise its value can be read back from the text. */
  lemma {:induction false} TimeOutTextRoundTrip(timeOut: int)
    ensures TimeOutText(timeOut) == "disabled" <==> timeOut < 1
    ensures timeOut >= 1 ==>
      var text := TimeOutText(timeOut);
      |text| > 3 && text[|text| - 3..] == " ms" && ParseInt(text[..|text| - 3]) == Some(timeOut)
  {
    if timeOut >= 1 {
      var digits := IntToDecimal(timeOut);
      var text := TimeOutText(timeOut);
      assert text == digits + " ms";
      assert text[|text| - 1] == 's';
      assert text[..|text| - 3] == digits;
      IntToDecimalRoundTrip(timeOut);
    }
  }

  /** `toString()`: the text the `StringBuffer` is filled with. `toHex` is
      `Library.toHexString`, not part of this model. */
  function ToString(t: TargetDescriptor, toHex: int -> string): string
  {
    "TargetDescriptor #" + IntToDecimal(t.instanceNumber)
    + " [url=\"" + t.url
    + "\"; crc=\"" + toHex(t.crc)
    + "\"; total time-out is " + TimeOutText(t.totalTimeOut)
    + "; connection time-out is " + TimeOutText(t.connectionTimeOut)
    + "; socket time-out is " + TimeOutText(t.socketTimeOut)
    + "]"
  }

  /** The text of `toString()` opens with the class name, the instance
      number and the URL, and closes with ']'. */
  lemma ToStringShape(t: TargetDescriptor, toHex: int -> string)
    ensures var head := "TargetDescriptor #" + IntToDecimal(t.instanceNumber) + " [url=\"" + t.url;
      var text := ToString(t, toHex);
      |head| < |text| && text[..|head|] == head && text[|text| - 1] == ']'
  {
    var head := "TargetDescriptor #" + IntToDecimal(t.instanceNumber) + " [url=\"" + t.url;
    var s1 := head + "\"; crc=\"";
    var s2 := s1 + toHex(t.crc);
    var s3 := s2 + "\"; total time-out is ";
    var s4 := s3 + TimeOutText(t.totalTimeOut);
    var s5 := s4 + "; connection time-out is ";
    var s6 := s5 + TimeOutText(t.connectionTimeOut);
    var s7 := s6 + "; socket time-out is ";
    var s8 := s7 + TimeOutText(t.socketTimeOut);
    assert ToString(t, toHex) == s8 + "]";
    PrefixExtends(head, head, "\"; crc=\"");
    PrefixExtends(head, s1, toHex(t.crc));
    PrefixExtends(head, s2, "\"; total time-out is ");
    PrefixExtends(head, s3, TimeOutText(t.totalTimeOut));
    PrefixExtends(head, s4, "; connection time-out is ");
    PrefixExtends(head, s5, TimeOutText(t.connectionTimeOut));
    PrefixExtends(head, s6, "; socket time-out is ");
    PrefixExtends(head, s7, TimeOutText(t.socketTimeOut));
    PrefixExtends(head, s8, "]");
  }

  /** A prefix of a text stays a prefix when the text is extended. */
  lemma PrefixExtends(p: string, s: string, more: string)
    requires |p| <= |s| && s[..|p|] == p
    ensures |p| <= |s + more| && (s + more)[..|p|] == p
  {
    assert (s + more)[..|p|] == s[..|p|];
  }

  /** One time-out branch of `toString()`: "disabled" and the rest as one
      literal, or the number, then " ms" and the rest. */
  method AppendTimeOut(buffer: string, timeOut: int, rest: string) returns (extended: string)
    ensures extended == buffer + TimeOutText(timeOut) + rest
  {
    if timeOut < 1 {
      extended := buffer + ("disabled" + rest);
    } else {
      extended := buffer + IntToDecimal(timeOut);
      extended := extended + (" ms" + rest);
    }
  }

  /** `toString()` as the source builds it: appended piece by piece to a
      buffer, one branch per time-out. */
  method BuildString(t: TargetDescriptor, toHex: int -> string) returns (text: string)
    ensures text == ToString(t, toHex)
  {
    var buffer := "TargetDescriptor #";
    buffer := buffer + IntToDecimal(t.instanceNumber);
    buffer := buffer + " [url=\"";
    buffer := buffer + t.url;
    buffer := buffer + "\"; crc=\"";
    buffer := buffer + toHex(t.crc);
    buffer := buffer + "\"; total time-out is ";
    buffer := AppendTimeOut(buffer, t.totalTimeOut, "; connection time-out is ");
    buffer := AppendTimeOut(buffer, t.connectionTimeOut, "; socket time-out is ");
    buffer := AppendTimeOut(buffer, t.socketTimeOut, "]");
    text := buffer;
  }

  /** Two descriptors can be `equals` and still print differently, since the
      instance number is part of the text but not of equality. */
  lemma EqualDescriptorsMayPrintDifferently(t: TargetDescriptor, toHex: int -> string)
    requires t.instanceNumber == 1
    ensures Equals(t, Some(t.(instanceNumber := 2)))
    ensures ToString(t, toHex) != ToString(t.(instanceNumber := 2), toHex)
  {
    var u := t.(instanceNumber := 2);
    assert ToString(t, toHex)[18] == '1';
    assert ToString(u, toHex)[18] == '2';
  }
}
