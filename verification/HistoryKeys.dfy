/** Under which key a connection counts. */
module HistoryKeys {
  import opened GoText
  import opened History

  // ----- The end of a host name -----

  function Dots(s: string): nat {
    if s == "" then 0 else (if s[0] == '.' then 1 else 0) + Dots(s[1..])
  }

  // The key is the end of the host after its last dot but one, or all of it.
  predicate LastLabels(host: string, key: string) {
    && |key| <= |host| && host[|host| - |key|..] == key
    && (if Dots(host) <= 1 then key == host
        else Dots(key) == 1 && |key| < |host| && host[|host| - |key| - 1] == '.')
  }

  lemma {:induction false} DotsOfBoth(a: string, b: string)
    ensures Dots(a + b) == Dots(a) + Dots(b)
  {
    if a == "" {
      assert a + b == b;
    } else {
      assert (a + b)[1..] == a[1..] + b;
      DotsOfBoth(a[1..], b);
    }
  }

  lemma {:induction false} NoDots(s: string)
    ensures Dots(s) == 0 <==> NoneOf(s, {'.'})
  {
    if s != "" {
      NoDots(s[1..]);
      assert forall i :: 0 < i < |s| ==> s[i] == s[1..][i - 1];
    }
  }

  // One label in front of the rest.
  lemma HostSplits(host: string) returns (first: string, rest: string)
    requires Dots(host) > 0
    ensures host == first + ("." + rest) && Dots(first) == 0 && Dots(rest) == Dots(host) - 1
    ensures Split(host, '.') == [first] + Split(rest, '.')
  {
    var n := Span(host, {'.'});
    NoDots(host);
    first, rest := host[..n], host[n + 1..];
    assert host == first + ("." + rest);
    NoDots(first);
    DotsOfBoth(first, "." + rest);
    assert ("." + rest)[1..] == rest;
  }

  lemma OneLabel(host: string)
    requires Dots(host) == 0
    ensures Split(host, '.') == [host]
  {
    NoDots(host);
  }

  lemma {:induction false} SplitCounts(host: string)
    ensures |Split(host, '.')| == Dots(host) + 1
    decreases |host|
  {
    if Dots(host) == 0 {
      OneLabel(host);
    } else {
      var first, rest := HostSplits(host);
      SplitCounts(rest);
    }
  }

  lemma LastTwoShort(host: string)
    requires Dots(host) <= 1
    ensures LastTwo(host) == host
  {
    hide Split;
    SplitCounts(host);
    if Dots(host) == 0 {
      OneLabel(host);
      JoinShort(host, "");
    } else {
      var first, rest := HostSplits(host);
      OneLabel(rest);
      JoinShort(first, rest);
      assert [first] + [rest] == [first, rest];
    }
  }

  lemma LastTwoLong(host: string) returns (first: string, rest: string)
    requires Dots(host) >= 2
    ensures host == first + ("." + rest) && Dots(rest) == Dots(host) - 1
    ensures LastTwo(host) == LastTwo(rest)
  {
    hide Split, Join;
    first, rest := HostSplits(host);
    SplitCounts(host);
    SplitCounts(rest);
    var labels, more := Split(host, '.'), Split(rest, '.');
    assert labels[|labels| - 2..] == more[|more| - 2..];
    assert more[0..] == more;
  }

  lemma {:induction false} LastTwoIs(host: string)
    ensures LastLabels(host, LastTwo(host))
    decreases |host|
  {
    hide LastTwo, Dots;
    if Dots(host) <= 1 {
      LastTwoShort(host);
      assert host[0..] == host;
    } else {
      var first, rest := LastTwoLong(host);
      LastTwoIs(rest);
      LongerHost(host, first, rest, LastTwo(rest));
    }
  }

  lemma JoinShort(a: string, b: string)
    ensures Join([a], ".") == a && Join([a, b], ".") == a + ("." + b)
  {
    assert [a, b][1..] == [b];
  }

  lemma LongerHost(host: string, first: string, rest: string, key: string)
    requires host == first + ("." + rest) && Dots(host) == Dots(rest) + 1 >= 2 && LastLabels(rest, key)
    ensures LastLabels(host, key)
  {
    hide Dots;
    var k := |key|;
    assert host[|first|] == '.' && host[|first| + 1..] == rest;
    assert host[|host| - k..] == rest[|rest| - k..];
    assert k < |rest| ==> host[|host| - k - 1] == rest[|rest| - k - 1];
  }

  // A longer end of a host, with a dot before the shorter one, holds that dot too.
  lemma LongerEnd(host: string, short: string, long: string)
    requires |short| < |long| <= |host| && host[|host| - |short|..] == short && host[|host| - |long|..] == long
    requires host[|host| - |short| - 1] == '.'
    ensures Dots(long) > Dots(short)
  {
    var k := |long| - |short| - 1;
    assert long[k] == host[|host| - |short| - 1];
    assert long[k + 1..] == short;
    assert long == long[..k] + ("." + short);
    DotsOfBoth(long[..k], "." + short);
    assert ("." + short)[1..] == short;
  }

  // The labels after the last dot but one are determined.
  lemma LastLabelsOnce(host: string, a: string, b: string)
    requires LastLabels(host, a) && LastLabels(host, b)
    ensures a == b
  {
    hide Dots;
    if Dots(host) > 1 {
      if |a| < |b| {
        LongerEnd(host, a, b);
      } else if |b| < |a| {
        LongerEnd(host, b, a);
      }
    }
  }

  // ----- The end of a path -----

  predicate Separates(c: char) {
    c == '/' || c == '\\'
  }

  // What follows the last separator, or all of it.
  predicate LastPart(path: string, part: string) {
    && |part| <= |path| && path[|path| - |part|..] == part
    && (forall i :: |path| - |part| <= i < |path| ==> !Separates(path[i]))
    && (|part| < |path| ==> Separates(path[|path| - |part| - 1]))
  }

  lemma BaseNameUnfolds(path: string)
    ensures BaseName(path) ==
              if path == "" || Separates(path[|path| - 1]) then ""
              else BaseName(path[..|path| - 1]) + [path[|path| - 1]]
  {
  }

  lemma {:induction false} BaseNameIs(path: string)
    ensures LastPart(path, BaseName(path))
  {
    hide BaseName;
    BaseNameUnfolds(path);
    if path != "" && !Separates(path[|path| - 1]) {
      var init := path[..|path| - 1];
      BaseNameIs(init);
      var part := BaseName(init);
      assert path[|path| - |part| - 1..] == init[|init| - |part|..] + [path[|path| - 1]];
    }
  }

  // ----- Keys -----

  // The key of a connection, read off its fields.
  predicate IsKey(isIp: string -> bool, t: HistoryType, c: Connection, key: string) {
    var m := c.metadata;
    match t
    case SourceIP => key == m.sourceIP
    case Destination =>
      // The host decides if there is one, else the sniffed one, else the address.
      && (m.host != "" ==> EndsAs(isIp, m.host, key))
      && (m.host == "" && m.sniffHost != "" ==> EndsAs(isIp, m.sniffHost, key))
      && (m.host == "" && m.sniffHost == "" ==> EndsAs(isIp, m.destinationIP, key))
    case Process =>
      && (m.process != "" ==> key == m.process)
      && (m.process == "" && LastPart(m.processPath, "") ==> key == "-")
      && (m.process == "" && !LastPart(m.processPath, "") ==> LastPart(m.processPath, key))
    case Outbound => key == if c.chains == [] || c.chains[0] == "" then "-" else c.chains[0]
  }

  // An address stands for itself, a name for its last two labels.
  predicate EndsAs(isIp: string -> bool, host: string, key: string) {
    if isIp(host) then key == host else LastLabels(host, key)
  }

  lemma DestinationIs(isIp: string -> bool, host: string, key: string)
    ensures EndsAs(isIp, host, key) <==> key == if isIp(host) then host else LastTwo(host)
  {
    hide LastTwo, LastLabels;
    LastTwoIs(host);
    if !isIp(host) && LastLabels(host, key) {
      LastLabelsOnce(host, key, LastTwo(host));
    }
  }

  lemma PathIs(path: string, part: string)
    ensures LastPart(path, part) <==> part == BaseName(path)
  {
    hide LastPart, BaseName;
    BaseNameIs(path);
    if LastPart(path, part) {
      LastPartOnce(path, part, BaseName(path));
    }
  }

  lemma LastPartOnce(path: string, a: string, b: string)
    requires LastPart(path, a) && LastPart(path, b)
    ensures a == b
  {
  }

  /** The aggregation's key is the one read off the fields, and there is no other. */
  lemma KeyIs(isIp: string -> bool, t: HistoryType, c: Connection, key: string)
    ensures IsKey(isIp, t, c, key) <==> key == KeyOf(isIp, t, c)
  {
    hide LastTwo, BaseName, LastPart, EndsAs;
    var m := c.metadata;
    match t
    case SourceIP =>
    case Destination =>
      DestinationIs(isIp, m.host, key);
      DestinationIs(isIp, m.sniffHost, key);
      DestinationIs(isIp, m.destinationIP, key);
    case Process =>
      PathIs(m.processPath, "");
      PathIs(m.processPath, key);
    case Outbound =>
  }
}
