/** What the two QQ clients share, and how the TCP client reads an endpoint. */
module ClientTypes {
  import opened Wrappers
  import opened Strings
  import opened Messages

  datatype State = Disconnected | Connected | LoggedIn | Closing

  datatype ClientError = Transport | Protocol | Login | InvalidState | Timeout

  const DEFAULT_TIMEOUT_MS: u64 := 2_000
  const NANOS_PER_MILLI := 1_000_000

  /** Whole milliseconds of a `Duration`, rounded down. */
  function Millis(nanos: nat): nat {
    nanos / NANOS_PER_MILLI
  }

  function EffectiveTimeout(ms: u64): u64 {
    if ms == 0 then DEFAULT_TIMEOUT_MS else ms
  }

  // ---------------------------------------------------------------- endpoints

  /** What stands before the first `c`, or everything. */
  function Before(s: string, c: char): (r: string)
    ensures c !in r && |r| <= |s| && r == s[..|r|]
    ensures |r| < |s| ==> s[|r|] == c
  {
    if s == "" || s[0] == c then "" else [s[0]] + Before(s[1..], c)
  }

  /** What stands after the first `://`, or everything. */
  function AfterScheme(s: string): (r: string)
    ensures |r| <= |s| && r == s[|s| - |r|..]
  {
    var rest := SchemeTail(s);
    if rest.Some? then rest.value else s
  }

  function SchemeTail(s: string): (r: Option<string>)
    ensures r.Some? ==> |r.value| <= |s| && r.value == s[|s| - |r.value|..]
    ensures r.Some? ==> '/' in s
  {
    if |s| < 3 then None
    else if s[..3] == "://" then assert s[1] == '/'; Some(s[3..])
    else SchemeTail(s[1..])
  }

  function NormalizeTcpEndpoint(raw: string): Result<string, ClientError> {
    var trimmed := Trim(raw);
    if trimmed == "" then Failure(Transport)
    else
      var host := Before(Before(AfterScheme(trimmed), '?'), '/');
      if IsBlank(host) || ':' !in host then Failure(Transport) else Success(host)
  }

  predicate IsAuthority(h: string) {
    ':' in h && '/' !in h && '?' !in h && !IsBlank(h)
  }

  lemma {:induction false} BadEndpoint(raw: string)
    ensures NormalizeTcpEndpoint(raw).Failure? ==> NormalizeTcpEndpoint(raw).error == Transport
  {
  }

  lemma {:induction false} NoScheme(h: string)
    requires '/' !in h
    ensures AfterScheme(h) == h && SchemeTail(h).None?
  {
  }

  lemma {:induction false} BeforeSkips(s: string, c: char, rest: string)
    requires c !in s
    ensures Before(s + rest, c) == s + Before(rest, c)
  {
    if s == "" {
      assert s + rest == rest;
    } else {
      assert (s + rest)[1..] == s[1..] + rest;
      BeforeSkips(s[1..], c, rest);
    }
  }

  lemma {:induction false} BeforeAbsent(s: string, c: char)
    requires c !in s
    ensures Before(s, c) == s
  {
    BeforeSkips(s, c, "");
    assert s + "" == s;
  }

  /** A normalised endpoint is a non-blank `host:port` part, and normalising it again only trims it. */
  lemma {:induction false} NormalizedIsAuthority(raw: string)
    requires NormalizeTcpEndpoint(raw).Success?
    ensures var h := NormalizeTcpEndpoint(raw).value;
            && IsAuthority(h)
            && NormalizeTcpEndpoint(h) == Success(Trim(h))
  {
    var tail := AfterScheme(Trim(raw));
    var q := Before(tail, '?');
    var h := Before(q, '/');
    assert h == q[..|h|];
    assert '?' !in h;
    TrimKeeps(h);
    var t := Trim(h);
    TrimFacts(h);
    NoScheme(t);
    BeforeAbsent(t, '?');
    BeforeAbsent(t, '/');
  }

  /** Trimming drops only white space. */
  lemma {:induction false} TrimKeeps(s: string)
    ensures forall c :: c in Trim(s) ==> c in s
    ensures forall c :: c in s && !IsWhitespace(c) ==> c in Trim(s)
  {
    TrimEndFacts(s);
    var e := TrimEnd(s);
    assert s == e + s[|e|..];
    TrimStartKeeps(e);
  }

  lemma {:induction false} TrimStartKeeps(s: string)
    ensures forall c :: c in TrimStart(s) ==> c in s
    ensures forall c :: c in s && !IsWhitespace(c) ==> c in TrimStart(s)
  {
    if s != "" && IsWhitespace(s[0]) {
      TrimStartKeeps(s[1..]);
      assert s == [s[0]] + s[1..];
    }
  }

  /** No `://` begins within the scheme. */
  predicate IsScheme(scheme: string) {
    SchemeTail(scheme + ":/").None?
  }

  lemma {:induction false} HostOf(h: string, tail: string)
    requires IsAuthority(h) && (tail == "" || tail[0] == '/' || tail[0] == '?')
    ensures Before(Before(h + tail, '?'), '/') == h
  {
    BeforeSkips(h, '?', tail);
    BeforeSkips(h, '/', Before(tail, '?'));
    assert h + "" == h;
  }

  /** Scheme, path and query are dropped, and white space around it all: the authority comes back unchanged. */
  lemma {:induction false} AuthorityIsRecovered(raw: string, scheme: string, h: string, tail: string)
    requires IsScheme(scheme) && IsAuthority(h) && (tail == "" || tail[0] == '/' || tail[0] == '?')
    requires Trim(raw) == scheme + "://" + (h + tail)
    ensures NormalizeTcpEndpoint(raw) == Success(h)
  {
    hide Trim, IsBlank, AfterScheme, IsScheme, Before;
    SchemeIsCut(scheme, h + tail);
    HostOf(h, tail);
  }

  /** Without a scheme likewise, if no `://` follows later. */
  lemma {:induction false} BareAuthorityIsRecovered(raw: string, h: string, tail: string)
    requires IsAuthority(h) && (tail == "" || tail[0] == '/' || tail[0] == '?')
    requires Trim(raw) == h + tail && SchemeTail(h + tail).None?
    ensures NormalizeTcpEndpoint(raw) == Success(h)
  {
    hide Trim, IsBlank, Before;
    HostOf(h, tail);
  }

  lemma {:induction false} SchemeIsCut(scheme: string, rest: string)
    requires IsScheme(scheme)
    ensures AfterScheme(scheme + "://" + rest) == rest && SchemeTail(scheme + "://" + rest) == Some(rest)
  {
    var s := scheme + "://" + rest;
    if scheme == "" {
      assert s[..3] == "://" && s[3..] == rest;
    } else {
      var cut := scheme + ":/";
      assert s[1..] == scheme[1..] + "://" + rest && cut[1..] == scheme[1..] + ":/";
      assert s[..3] == cut[..3];
      SchemeIsCut(scheme[1..], rest);
    }
  }
}
