/**
 * `fingerprint`: the service label for a port, from its banner if the
 * banner names a known service, else from the port number, else "Unknown".
 */
module Fingerprint {
  import opened Types
  import opened Strings

  /** A banner pattern and the label it stands for. */
  datatype Signature = Signature(pattern: string, service: string)

  /** A conventional port number and the service usually found there. */
  datatype PortHint = PortHint(port: Port, service: string)

  /** The signature table, in match order: the first entry that matches wins. */
  const Signatures: seq<Signature> := [
    Signature("SSH", "SSH"),
    Signature("FTP", "FTP"),
    Signature("SMTP", "SMTP"),
    Signature("POP3", "POP3"),
    Signature("IMAP", "IMAP"),
    Signature("CUPS", "CUPS (Print Server)"),
    Signature("Apache", "HTTP (Apache)"),
    Signature("openresty", "HTTP (OpenResty/nginx)"),
    Signature("nginx", "HTTP (nginx)"),
    Signature("Microsoft-IIS", "HTTP (IIS)"),
    Signature("HTTP/1.", "HTTP"),
    Signature("RFB", "VNC"),
    Signature("MySQL", "MySQL"),
    Signature("PostgreSQL", "PostgreSQL"),
    Signature("redis", "Redis"),
    Signature("Telnet", "Telnet")
  ]

  /** The port-hint table, searched in order. */
  const PortHints: seq<PortHint> := [
    PortHint(21, "FTP"),
    PortHint(22, "SSH"),
    PortHint(23, "Telnet"),
    PortHint(25, "SMTP"),
    PortHint(53, "DNS"),
    PortHint(80, "HTTP"),
    PortHint(110, "POP3"),
    PortHint(143, "IMAP"),
    PortHint(443, "HTTPS"),
    PortHint(445, "SMB"),
    PortHint(3306, "MySQL"),
    PortHint(5432, "PostgreSQL"),
    PortHint(6379, "Redis"),
    PortHint(5900, "VNC"),
    PortHint(631, "CUPS (Print Server)"),
    PortHint(8080, "HTTP (alt)")
  ]

  /** Appended to a label that was guessed from the port number alone. */
  const GuessSuffix: string := " (port-based guess)"

  /** The label when neither the banner nor the port says anything. */
  const UnknownLabel: string := "Unknown"

  /** Index of the signature entry whose pattern is "Apache". */
  const ApacheIndex: nat := 6

  /** Index of the generic "HTTP/1." entry. */
  const GenericHttpIndex: nat := 10

  /** The lower-cased banner contains the lower-cased pattern of `sig`. */
  predicate Matches(lowered: string, sig: Signature): (b: bool)
    ensures b <==> exists i :: OccursAt(lowered, ToLower(sig.pattern), i)
  {
    ContainsIff(lowered, ToLower(sig.pattern));
    Contains(lowered, ToLower(sig.pattern))
  }

  /** The loop over the signature table: the first matching entry at or after `from`. */
  function FirstSignature(lowered: string, from: nat): (k: Option<nat>)
    requires from <= |Signatures|
    ensures k.Some? ==> from <= k.value < |Signatures| && Matches(lowered, Signatures[k.value])
    ensures k.Some? ==> forall j :: from <= j < k.value ==> !Matches(lowered, Signatures[j])
    ensures k.None? ==> forall j :: from <= j < |Signatures| ==> !Matches(lowered, Signatures[j])
    decreases |Signatures| - from
  {
    if from == |Signatures| then None
    else if Matches(lowered, Signatures[from]) then Some(from)
    else FirstSignature(lowered, from + 1)
  }

  /** The loop over the port-hint table: the first entry for `port` at or after `from`. */
  function FirstHint(port: Port, from: nat): (k: Option<nat>)
    requires from <= |PortHints|
    ensures k.Some? ==> from <= k.value < |PortHints| && PortHints[k.value].port == port
    ensures k.Some? ==> forall j :: from <= j < k.value ==> PortHints[j].port != port
    ensures k.None? ==> forall j :: from <= j < |PortHints| ==> PortHints[j].port != port
    decreases |PortHints| - from
  {
    if from == |PortHints| then None
    else if PortHints[from].port == port then Some(from)
    else FirstHint(port, from + 1)
  }

  /** Every label in both tables is non-empty. */
  lemma LabelsNonEmpty()
    ensures forall j :: 0 <= j < |Signatures| ==> Signatures[j].service != []
    ensures forall j :: 0 <= j < |PortHints| ==> PortHints[j].service != []
  {
  }

  /** The service label for `port` given the banner read from it, if any. */
  function Fingerprint(port: Port, banner: Option<string>): (service: string)
    ensures service != []
  {
    LabelsNonEmpty();
    var bySignature := if banner.Some? then FirstSignature(ToLower(banner.value), 0) else None;
    if bySignature.Some? then Signatures[bySignature.value].service
    else
      match FirstHint(port, 0)
      case Some(k) => PortHints[k].service + GuessSuffix
      case None => UnknownLabel
  }

  /** No signature pattern occurs in the banner, or there is no banner. */
  predicate NoSignatureMatches(banner: Option<string>) {
    banner.None? || forall j :: 0 <= j < |Signatures| ==> !Matches(ToLower(banner.value), Signatures[j])
  }

  /** The first signature entry whose pattern the banner contains decides the label. */
  lemma {:induction false} FirstMatchWins(port: Port, banner: string, k: nat)
    requires k < |Signatures| && Matches(ToLower(banner), Signatures[k])
    requires forall j :: 0 <= j < k ==> !Matches(ToLower(banner), Signatures[j])
    ensures Fingerprint(port, Some(banner)) == Signatures[k].service
  {
    var found := FirstSignature(ToLower(banner), 0);
    assert found == Some(k);
  }

  /** A matching entry can only be overruled by an earlier entry that also matches. */
  lemma {:induction false} MatchBoundsLabel(port: Port, banner: string, k: nat)
    requires k < |Signatures| && Matches(ToLower(banner), Signatures[k])
    ensures exists j :: (0 <= j <= k && Matches(ToLower(banner), Signatures[j])
      && Fingerprint(port, Some(banner)) == Signatures[j].service)
  {
    var found := FirstSignature(ToLower(banner), 0);
    assert found.Some? && found.value <= k;
  }

  /** Without banner evidence, a port in the hint table gets its label as a guess. */
  lemma {:induction false} PortGuess(port: Port, banner: Option<string>, k: nat)
    requires NoSignatureMatches(banner)
    requires k < |PortHints| && PortHints[k].port == port
    ensures Fingerprint(port, banner) == PortHints[k].service + GuessSuffix
  {
    var bySignature := if banner.Some? then FirstSignature(ToLower(banner.value), 0) else None;
    assert bySignature.None?;
    HintPortsDistinct();
    var hint := FirstHint(port, 0);
    assert hint == Some(k);
  }

  /** No port appears twice in the hint table, so the guess for a port is unambiguous. */
  lemma HintPortsDistinct()
    ensures forall i, j :: 0 <= i < j < |PortHints| ==> PortHints[i].port != PortHints[j].port
  {
  }

  /** Without banner evidence and without a hint, the label is exactly "Unknown". */
  lemma {:induction false} UnknownFallback(port: Port, banner: Option<string>)
    requires NoSignatureMatches(banner)
    requires forall j :: 0 <= j < |PortHints| ==> PortHints[j].port != port
    ensures Fingerprint(port, banner) == UnknownLabel
  {
    var bySignature := if banner.Some? then FirstSignature(ToLower(banner.value), 0) else None;
    assert bySignature.None?;
  }

  /** Every label is a signature label backed by the banner, a port guess, or "Unknown". */
  lemma {:induction false} FingerprintCases(port: Port, banner: Option<string>)
    ensures var service := Fingerprint(port, banner);
      || (exists k :: 0 <= k < |Signatures| && banner.Some?
            && Matches(ToLower(banner.value), Signatures[k]) && service == Signatures[k].service)
      || (NoSignatureMatches(banner)
            && exists k :: 0 <= k < |PortHints| && PortHints[k].port == port && service == PortHints[k].service + GuessSuffix)
      || (NoSignatureMatches(banner)
            && (forall k :: 0 <= k < |PortHints| ==> PortHints[k].port != port) && service == UnknownLabel)
  {
    var bySignature := if banner.Some? then FirstSignature(ToLower(banner.value), 0) else None;
    if bySignature.Some? {
      var k := bySignature.value;
      assert Matches(ToLower(banner.value), Signatures[k]);
    } else {
      var hint := FirstHint(port, 0);
      if hint.Some? {
        assert PortHints[hint.value].port == port;
      }
    }
  }

  /** No entry before "Apache" and no entry up to it carries the generic label "HTTP". */
  lemma NoGenericHttpUpToApache()
    ensures forall j :: 0 <= j <= ApacheIndex ==> Signatures[j].service != "HTTP"
    ensures ToLower(Signatures[ApacheIndex].pattern) == "apache"
    ensures Signatures[ApacheIndex].service == "HTTP (Apache)"
    ensures Signatures[GenericHttpIndex].service == "HTTP" && ApacheIndex < GenericHttpIndex
  {
  }

  /**
   * A banner that mentions Apache is never classified as generic "HTTP",
   * whatever else it contains; unless an earlier service pattern matches
   * it, it is "HTTP (Apache)".
   */
  lemma {:induction false} ApacheBeatsGenericHttp(port: Port, banner: string)
    requires Contains(ToLower(banner), "apache")
    ensures Fingerprint(port, Some(banner)) != "HTTP"
    ensures (forall j :: 0 <= j < ApacheIndex ==> !Matches(ToLower(banner), Signatures[j]))
      ==> Fingerprint(port, Some(banner)) == "HTTP (Apache)"
  {
    NoGenericHttpUpToApache();
    MatchBoundsLabel(port, banner, ApacheIndex);
    if forall j :: 0 <= j < ApacheIndex ==> !Matches(ToLower(banner), Signatures[j]) {
      FirstMatchWins(port, banner, ApacheIndex);
    }
  }

  /** The openresty entry precedes the nginx entry and the generic HTTP entry. */
  lemma OpenRestyTable()
    ensures ToLower(Signatures[7].pattern) == "openresty" && Signatures[7].service == "HTTP (OpenResty/nginx)"
    ensures forall j :: 0 <= j <= 7 ==> Signatures[j].service != "HTTP (nginx)" && Signatures[j].service != "HTTP"
  {
  }

  /** A banner that mentions openresty is never labelled plain nginx or generic HTTP. */
  lemma {:induction false} OpenRestyBeforeNginx(port: Port, banner: string)
    requires Contains(ToLower(banner), "openresty")
    ensures Fingerprint(port, Some(banner)) != "HTTP (nginx)"
    ensures Fingerprint(port, Some(banner)) != "HTTP"
  {
    OpenRestyTable();
    MatchBoundsLabel(port, banner, 7);
  }

  /** An open Redis port with no banner is guessed from its number. */
  lemma RedisGuessExample(port: Port)
    requires port == 6379
    ensures Fingerprint(port, None) == "Redis (port-based guess)"
  {
    PortGuess(port, None, 12);
    RedisGuessLabel(PortHints[12].service, "Redis (port-based guess)");
  }

  /** The guess label for Redis, spelled out. */
  lemma RedisGuessLabel(service: string, guess: string)
    requires service == "Redis" && guess == "Redis (port-based guess)"
    ensures service + GuessSuffix == guess
  {
    assert guess[..5] == service && guess[5..] == GuessSuffix;
  }

  /** A port outside the hint table with no banner is "Unknown". */
  lemma UnknownExample(port: Port)
    requires port == 50000
    ensures Fingerprint(port, None) == "Unknown"
  {
    UnknownFallback(port, None);
  }

  /** An OpenSSH greeting is classified as SSH. */
  lemma SshBannerExample(banner: string)
    requires banner == "SSH-2.0-OpenSSH_8.9"
    ensures Fingerprint(22, Some(banner)) == "SSH"
  {
    assert ToLower(Signatures[0].pattern) == "ssh";
    assert StartsWith(ToLower(banner), "ssh") by {
      assert ToLower(banner)[..3] == "ssh";
    }
    FirstMatchWins(22, banner, 0);
  }
}
