/**
  The hostname check on the Host header: an optional `:port` suffix, then an IPv4 literal, a
  dotted name of valid labels, or one bare run of letters, digits and hyphens.
 */
module Hostname {
  import opened Wrappers
  import opened Text
  import opened Address

  predicate IsAlnum(c: char) {
    IsDigit(c) || 'a' <= c <= 'z' || 'A' <= c <= 'Z'
  }

  predicate IsNameChar(c: char) {
    IsAlnum(c) || c == '-'
  }

  predicate AllNameChars(s: string) {
    forall i :: 0 <= i < |s| ==> IsNameChar(s[i])
  }

  function LastIndexOf(s: string, c: char): (r: Option<nat>)
    ensures r.Some? ==> r.value < |s| && s[r.value] == c && c !in s[r.value + 1..]
    ensures r.None? <==> c !in s
  {
    if s == "" then None
    else if s[|s| - 1] == c then Some(|s| - 1)
    else LastIndexOf(s[..|s| - 1], c)
  }

  /** Removes a `:digits` suffix. */
  function StripPort(hostname: string): string {
    match LastIndexOf(hostname, ':')
    case None => hostname
    case Some(i) =>
      var port := hostname[i + 1..];
      if port != "" && AllDigits(port) then hostname[..i] else hostname
  }

  predicate IsValidLabel(s: string) {
    if s == "" || ByteLength(s) > 63 then false
    else if s[0] == '-' || s[|s| - 1] == '-' then false
    else AllNameChars(s)
  }

  predicate AllLabelsValid(labels: seq<string>) {
    forall i :: 0 <= i < |labels| ==> IsValidLabel(labels[i])
  }

  predicate IsValidHostname(hostname: string) {
    if hostname == "" then false
    else
      var host := StripPort(hostname);
      if host == "" || ByteLength(host) > 253 then false
      else if ParseV4(host).Some? then true
      else (AllLabelsValid(Split(host, '.')) && '.' in host) || AllNameChars(host)
  }

  /** Letters and digits by their codes. */
  lemma AlnumCodes(c: char)
    ensures IsAlnum(c) <==> 48 <= c as int <= 57 || 65 <= c as int <= 90 || 97 <= c as int <= 122
  {
  }

  // ---------------------------------------------------------------- characterisation

  /**
    Section 2.1 of RFC 1123 and section 2.3.4 of RFC 1035, character by character: letters,
    digits, hyphens and dots; a letter or digit at either end and on either side of every
    dot; a dot in every window of 64 characters.
   */
  predicate IsDottedName(s: string) {
    && s != "" && IsAlnum(s[0]) && IsAlnum(s[|s| - 1])
    && (forall i :: 0 <= i < |s| ==> IsNameChar(s[i]) || s[i] == '.')
    && (forall i :: 0 <= i < |s| - 1 ==> Beside(s[i], s[i + 1]))
    && (forall i :: 0 <= i < |s| ==> Spaced(s, i))
  }

  predicate Beside(c: char, d: char) {
    (c == '.' ==> IsAlnum(d)) && (d == '.' ==> IsAlnum(c))
  }

  /** If 64 characters start at `i`, one of them is a dot. */
  predicate Spaced(s: string, i: nat) {
    i + 64 <= |s| ==> '.' in s[i..i + 64]
  }

  lemma {:induction false} AsciiLength(s: string)
    requires forall i :: 0 <= i < |s| ==> s[i] < '\U{80}'
    ensures ByteLength(s) == |s|
  {
    if s != "" {
      AsciiLength(s[1..]);
    }
  }

  lemma {:induction false} LengthAtLeast(s: string)
    ensures ByteLength(s) >= |s|
  {
    if s != "" {
      LengthAtLeast(s[1..]);
    }
  }

  /** A single label is a dotted name without dots. */
  lemma LabelIsName(s: string)
    requires '.' !in s
    ensures IsValidLabel(s) <==> IsDottedName(s)
  {
    if AllNameChars(s) {
      AsciiLength(s);
    }
    assert s != "" ==> (Spaced(s, 0) <==> |s| <= 63);
  }

  lemma SliceOfRest(a: string, rest: string, i: nat)
    requires i + 64 <= |rest|
    ensures (a + ['.'] + rest)[|a| + 1 + i..|a| + 1 + i + 64] == rest[i..i + 64]
  {
  }

  lemma NameOfLabels(a: string, rest: string)
    requires '.' !in a && IsDottedName(a) && IsDottedName(rest)
    ensures IsDottedName(a + ['.'] + rest)
  {
    var s := a + ['.'] + rest;
    assert Spaced(a, 0);
    forall i | 0 <= i < |s| - 1
      ensures Beside(s[i], s[i + 1])
    {
      if i < |a| - 1 {
        assert Beside(a[i], a[i + 1]);
      } else if i > |a| {
        assert Beside(rest[i - |a| - 1], rest[i - |a|]);
      }
    }
    forall i | 0 <= i < |s|
      ensures Spaced(s, i)
    {
      if i + 64 <= |s| {
        if i <= |a| {
          assert s[i..i + 64][|a| - i] == '.';
        } else {
          assert Spaced(rest, i - |a| - 1);
          SliceOfRest(a, rest, i - |a| - 1);
        }
      }
    }
  }

  lemma LabelsOfName(a: string, rest: string)
    requires '.' !in a && IsDottedName(a + ['.'] + rest)
    ensures IsDottedName(a) && IsDottedName(rest)
  {
    var s := a + ['.'] + rest;
    assert a != "" by { assert s[0] != '.'; }
    assert rest != "" by { assert s[|s| - 1] != '.'; }
    assert Beside(s[|a| - 1], s[|a|]) && Beside(s[|a|], s[|a| + 1]);
    assert Spaced(s, 0);
    forall i | 0 <= i < |a|
      ensures IsNameChar(a[i])
    {
      assert s[i] == a[i];
    }
    forall i | 0 <= i < |rest|
      ensures IsNameChar(rest[i]) || rest[i] == '.'
    {
      assert s[|a| + 1 + i] == rest[i];
    }
    forall i | 0 <= i < |a| - 1
      ensures Beside(a[i], a[i + 1])
    {
      assert Beside(s[i], s[i + 1]);
    }
    forall i | 0 <= i < |rest| - 1
      ensures Beside(rest[i], rest[i + 1])
    {
      assert Beside(s[|a| + 1 + i], s[|a| + 2 + i]);
    }
    forall i | 0 <= i < |rest|
      ensures Spaced(rest, i)
    {
      assert Spaced(s, |a| + 1 + i);
      if i + 64 <= |rest| {
        SliceOfRest(a, rest, i);
      }
    }
  }

  /** Checking the labels one by one is checking the name character by character. */
  lemma {:induction false} LabelsAreName(s: string)
    ensures AllLabelsValid(Split(s, '.')) <==> IsDottedName(s)
    decreases |s|
  {
    if '.' !in s {
      LabelIsName(s);
      assert Split(s, '.') == [s] && [s][0] == s;
    } else {
      var rest := SplitHead(s, '.');
      var a := Split(s, '.')[0];
      LabelIsName(a);
      LabelsAreName(rest);
      assert Split(s, '.') == [a] + Split(rest, '.');
      if IsDottedName(s) {
        LabelsOfName(a, rest);
      } else if IsDottedName(a) && IsDottedName(rest) {
        NameOfLabels(a, rest);
      }
    }
  }

  /** The IPv4 branch never changes the answer: every dotted quad is a dotted name. */
  lemma QuadIsDottedName(s: string)
    requires ParseV4(s).Some?
    ensures IsDottedName(s) && '.' in s
  {
    var labels := Split(s, '.');
    forall i | 0 <= i < |labels|
      ensures IsValidLabel(labels[i])
    {
      AsciiLength(labels[i]);
    }
    LabelsAreName(s);
    assert '.' !in s ==> Split(s, '.') == [s];
  }

  /** A name that is not empty, not too long, and either dotted or bare. */
  predicate IsName(host: string) {
    1 <= |host| <= 253 && ((IsDottedName(host) && '.' in host) || AllNameChars(host))
  }

  /**
    A name is accepted if and only if, without its `:digits` suffix, it has 1 to 253
    characters and is a dotted name or one bare run of letters, digits and hyphens.
   */
  lemma HostnameCharacterised(hostname: string)
    ensures IsValidHostname(hostname) <==> IsName(StripPort(hostname))
  {
    var host := StripPort(hostname);
    LabelsAreName(host);
    LengthAtLeast(host);
    if IsDottedName(host) || AllNameChars(host) {
      AsciiLength(host);
    }
    if ParseV4(host).Some? {
      QuadIsDottedName(host);
    }
  }

  /** Appending a port to a name without a colon never changes the answer. */
  lemma PortDoesNotMatter(name: string, port: string)
    requires ':' !in name && port != "" && AllDigits(port)
    ensures IsValidHostname(name + [':'] + port) <==> IsValidHostname(name)
  {
    var full := name + [':'] + port;
    LastColon(name, port);
    assert full[|name| + 1..] == port && full[..|name|] == name;
    assert StripPort(full) == name && StripPort(name) == name;
  }

  lemma {:induction false} LastColon(name: string, port: string)
    requires AllDigits(port)
    ensures LastIndexOf(name + [':'] + port, ':') == Some(|name|)
    decreases |port|
  {
    var full := name + [':'] + port;
    if port != "" {
      LastColon(name, port[..|port| - 1]);
      assert full[..|full| - 1] == name + [':'] + port[..|port| - 1];
      assert IsDigit(port[|port| - 1]);
    }
  }

  predicate WithPort(hostname: string, host: string, port: string) {
    hostname == host + [':'] + port && port != "" && AllDigits(port)
  }

  /** The accepted strings are exactly the names, and the names followed by a colon and digits. */
  lemma AcceptedStrings(hostname: string)
    ensures IsValidHostname(hostname) <==>
            IsName(hostname) || exists host, port :: WithPort(hostname, host, port) && IsName(host)
  {
    HostnameCharacterised(hostname);
    if IsValidHostname(hostname) {
      var host := StripPort(hostname);
      if host != hostname {
        assert WithPort(hostname, host, hostname[|host| + 1..]);
      }
    } else {
      NamesAreAccepted(hostname);
      forall host, port | WithPort(hostname, host, port)
        ensures !IsName(host)
      {
        NamesAreAccepted(host);
        if ':' !in host {
          PortDoesNotMatter(host, port);
        }
      }
    }
  }

  lemma NamesAreAccepted(host: string)
    ensures IsName(host) ==> IsValidHostname(host) && ':' !in host
  {
    HostnameCharacterised(host);
  }

  /**
    The documented label rules (1 to 63 characters, no hyphen at the ends) hold for an
    accepted name exactly when it has a dot, or is short enough and has no hyphen at its
    ends: a bare name is not checked as a label.
   */
  lemma LabelRulesHold(hostname: string)
    requires IsValidHostname(hostname)
    ensures var host := StripPort(hostname);
            && host != ""
            && (AllLabelsValid(Split(host, '.')) <==>
                '.' in host || (|host| <= 63 && host[0] != '-' && host[|host| - 1] != '-'))
  {
    var host := StripPort(hostname);
    HostnameCharacterised(hostname);
    LabelsAreName(host);
    if '.' !in host {
      assert Split(host, '.') == [host] && [host][0] == host;
      AsciiLength(host);
    } else {
      assert !AllNameChars(host);
    }
  }

  lemma BareHyphenIsAccepted()
    ensures IsValidHostname("-") && !IsValidLabel("-")
  {
    assert ParseV4("-").Some? || AllNameChars("-");
    assert ByteLength("-") == 1;
  }
}
