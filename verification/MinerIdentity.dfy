/**
 * Miner identities: two ways of writing a payout address and a worker label,
 * parsed to one canonical form, and the miner ids built from it.
 */
module MinerIdentity {
  import opened Words
  import opened Text

  datatype Network = Mainnet | Testnet4 | Signet | Regtest

  /**
   * Decoding and printing a Bitcoin address for a network: foreign code. A
   * successful decode yields the canonical spelling.
   */
  type Decoder = (string, Network) -> Option<string>

  /** What is assumed of the address library: canonical spellings are fixed points of ASCII alphanumerics. */
  ghost predicate Canonical(decode: Decoder) {
    forall s: string, n: Network :: decode(s, n).Some? ==> CanonicalAddress(decode, n, decode(s, n).value)
  }

  predicate CanonicalAddress(decode: Decoder, n: Network, a: string) {
    a != [] && AllAlnum(a) && decode(a, n) == Some(a)
  }

  datatype Identity = Identity(workerLabel: string, payout: string, userIdentity: string)

  datatype ParseError = Empty | Unsupported | InvalidAddress

  datatype Parsed = Accepted(identity: Identity) | Rejected(error: ParseError)

  const SRI: string := "sri/"
  const SRI_SOLO: string := "sri/solo/"
  const DEFAULT_LABEL: string := "default"

  function ValidateAddress(decode: Decoder, address: string, n: Network): Option<string> {
    var trimmed := Trim(address);
    if trimmed == [] then None else decode(trimmed, n)
  }

  function LabelOf(text: string): string {
    if Trim(text) == [] then DEFAULT_LABEL else Trim(text)
  }

  /** The address and label texts of a trimmed identity, if its form is supported. */
  function Pieces(identity: string): Option<(string, string)> {
    if StartsWith(identity, SRI_SOLO) then
      var parts := Split(identity[|SRI_SOLO|..], '/');
      Some((parts[0], Join(parts[1..], '/')))
    else if StartsWith(identity, SRI) then None
    else Some(SplitOnce(identity, '.').GetOr((identity, "")))
  }

  function Parse(decode: Decoder, text: string, n: Network): Parsed {
    var identity := Trim(text);
    if identity == [] then Rejected(Empty)
    else
      match Pieces(identity)
      case None => Rejected(Unsupported)
      case Some((address, workerLabel)) =>
        match ValidateAddress(decode, address, n)
        case None => Rejected(InvalidAddress)
        case Some(payout) => Accepted(Identity(LabelOf(workerLabel), payout, identity))
  }

  // ----- The two surface forms agree -----

  function Dotted(address: string, workerLabel: string): string {
    address + "." + workerLabel
  }

  function SriSolo(address: string, workerLabel: string): string {
    SRI_SOLO + address + "/" + workerLabel
  }

  lemma AlnumIsNoSpace(s: string, i: nat)
    requires AllAlnum(s) && i < |s|
    ensures !IsSpace(s[i]) && s[i] != '.' && s[i] != '/' && s[i] != ':'
  {
  }

  lemma AlnumHasNo(s: string)
    requires AllAlnum(s)
    ensures '.' !in s && '/' !in s && ':' !in s
    ensures Trimmed(s)
  {
  }

  lemma {:induction false} LabelIgnoresTrailingSpace(workerLabel: string)
    ensures LabelOf(TrimEnd(workerLabel)) == LabelOf(workerLabel)
  {
    TrimOfTrimEnd(workerLabel);
  }

  /** A prefix that starts and ends with no space protects what precedes the label from trimming. */
  lemma {:induction false} TrimKeepsPrefix(prefix: string, workerLabel: string)
    requires prefix != [] && Trimmed(prefix)
    ensures Trim(prefix + workerLabel) == prefix + TrimEnd(workerLabel)
  {
    assert (prefix + workerLabel)[0] == prefix[0];
    TrimEndAfter(prefix, workerLabel);
  }

  lemma DottedParses(decode: Decoder, n: Network, address: string, workerLabel: string)
    requires CanonicalAddress(decode, n, address)
    ensures Parse(decode, Dotted(address, workerLabel), n)
            == Accepted(Identity(LabelOf(workerLabel), address, Trim(Dotted(address, workerLabel))))
  {
    var prefix := address + ".";
    AlnumHasNo(address);
    assert Dotted(address, workerLabel) == prefix + workerLabel;
    TrimKeepsPrefix(prefix, workerLabel);
    var identity := prefix + TrimEnd(workerLabel);
    assert identity == address + ['.'] + TrimEnd(workerLabel);
    SplitOnceAfter(address, TrimEnd(workerLabel), '.');
    NoSriPrefix(address, TrimEnd(workerLabel));
    TrimmedStays(address);
    LabelIgnoresTrailingSpace(workerLabel);
  }

  lemma NoSriPrefix(address: string, rest: string)
    requires AllAlnum(address)
    ensures !StartsWith(address + ['.'] + rest, SRI)
  {
    var identity := address + ['.'] + rest;
    assert identity[|address|] == '.';
    if |address| <= 3 {
      assert SRI[|address|] != identity[|address|];
    } else {
      AlnumIsNoSpace(address, 3);
      assert identity[3] == address[3] != SRI[3];
    }
  }

  lemma SriSoloParses(decode: Decoder, n: Network, address: string, workerLabel: string)
    requires CanonicalAddress(decode, n, address)
    ensures Parse(decode, SriSolo(address, workerLabel), n)
            == Accepted(Identity(LabelOf(workerLabel), address, Trim(SriSolo(address, workerLabel))))
  {
    var prefix := SRI_SOLO + address + "/";
    AlnumHasNo(address);
    assert prefix[0] == 's' && prefix[|prefix| - 1] == '/';
    assert SriSolo(address, workerLabel) == prefix + workerLabel;
    TrimKeepsPrefix(prefix, workerLabel);
    var identity := prefix + TrimEnd(workerLabel);
    assert identity[|SRI_SOLO|..] == address + ['/'] + TrimEnd(workerLabel);
    SplitAfter(address, TrimEnd(workerLabel), '/');
    var parts := Split(identity[|SRI_SOLO|..], '/');
    assert parts == [address] + Split(TrimEnd(workerLabel), '/');
    assert parts[1..] == Split(TrimEnd(workerLabel), '/');
    JoinOfSplit(TrimEnd(workerLabel), '/');
    TrimmedStays(address);
    LabelIgnoresTrailingSpace(workerLabel);
  }

  /** For every canonical address and every label text both forms parse to the same payout and label. */
  lemma FormsAgree(decode: Decoder, n: Network, address: string, workerLabel: string)
    requires CanonicalAddress(decode, n, address)
    ensures var dotted := Parse(decode, Dotted(address, workerLabel), n);
            var sri := Parse(decode, SriSolo(address, workerLabel), n);
            && dotted.Accepted? && sri.Accepted?
            && dotted.identity.payout == sri.identity.payout == address
            && dotted.identity.workerLabel == sri.identity.workerLabel == LabelOf(workerLabel)
  {
    DottedParses(decode, n, address, workerLabel);
    SriSoloParses(decode, n, address, workerLabel);
  }

  lemma LabelIsStable(text: string)
    ensures LabelOf(text) != [] && Trimmed(LabelOf(text))
    ensures LabelOf(LabelOf(text)) == LabelOf(text)
  {
    TrimIsTrimmed(text);
    TrimmedStays(LabelOf(text));
  }

  /** What an accepted identity looks like. */
  lemma ParsedIsCanonical(decode: Decoder, n: Network, text: string)
    requires Canonical(decode)
    requires Parse(decode, text, n).Accepted?
    ensures var id := Parse(decode, text, n).identity;
            && CanonicalAddress(decode, n, id.payout)
            && id.workerLabel != [] && Trimmed(id.workerLabel) && LabelOf(id.workerLabel) == id.workerLabel
  {
    var (address, workerLabel) := Pieces(Trim(text)).value;
    assert decode(Trim(address), n).Some?;
    LabelIsStable(workerLabel);
  }

  /** Printing a parsed identity in either form and parsing it again gives the same payout and label. */
  lemma PrintedIdentityReparses(decode: Decoder, n: Network, text: string)
    requires Canonical(decode)
    requires Parse(decode, text, n).Accepted?
    ensures var id := Parse(decode, text, n).identity;
            var dotted := Parse(decode, Dotted(id.payout, id.workerLabel), n);
            var sri := Parse(decode, SriSolo(id.payout, id.workerLabel), n);
            && dotted.Accepted? && dotted.identity.payout == id.payout && dotted.identity.workerLabel == id.workerLabel
            && sri.Accepted? && sri.identity.payout == id.payout && sri.identity.workerLabel == id.workerLabel
  {
    var id := Parse(decode, text, n).identity;
    ParsedIsCanonical(decode, n, text);
    FormsAgree(decode, n, id.payout, id.workerLabel);
  }

  // ----- Which texts are accepted -----

  /**
   * The forms of a trimmed identity: an address alone or with a label after its
   * first dot, or the same behind `sri/solo/` with a slash. Nothing else that
   * starts with `sri/` has a form.
   */
  predicate HasForm(identity: string, address: string, workerLabel: string) {
    || (identity == SRI_SOLO + address && '/' !in address && workerLabel == "")
    || (identity == SRI_SOLO + address + "/" + workerLabel && '/' !in address)
    || (identity == address && '.' !in address && workerLabel == "" && !StartsWith(identity, SRI))
    || (identity == address + "." + workerLabel && '.' !in address && !StartsWith(identity, SRI))
  }

  lemma {:induction false} SplitOfNone(s: string, sep: char)
    requires sep !in s
    ensures Split(s, sep) == [s]
  {
    if s != [] {
      SplitOfNone(s[1..], sep);
      assert s == [s[0]] + s[1..];
    }
  }

  lemma SoloPieces(address: string, workerLabel: string, rest: string)
    requires '/' !in address
    requires rest == address + "/" + workerLabel || (rest == address && workerLabel == "")
    ensures Pieces(SRI_SOLO + rest) == Some((address, workerLabel))
  {
    assert (SRI_SOLO + rest)[|SRI_SOLO|..] == rest;
    if rest == address && workerLabel == "" {
      SplitOfNone(address, '/');
      assert [address][1..] == [];
    } else {
      assert rest == address + ['/'] + workerLabel;
      SplitAfter(address, workerLabel, '/');
      assert ([address] + Split(workerLabel, '/'))[1..] == Split(workerLabel, '/');
      JoinOfSplit(workerLabel, '/');
    }
  }

  lemma SoloStartsWithSri(identity: string)
    requires StartsWith(identity, SRI_SOLO)
    ensures StartsWith(identity, SRI)
  {
    assert SRI_SOLO[..4] == SRI;
  }

  lemma {:induction false} NoOccurrence(s: string, c: char)
    ensures IndexOf(s, c) == |s| <==> c !in s
  {
    if IndexOf(s, c) < |s| {
      assert s[IndexOf(s, c)] in s;
    }
  }

  /** A form leaves no choice of address and label. */
  lemma FormIsPieces(identity: string, address: string, workerLabel: string)
    ensures HasForm(identity, address, workerLabel) ==> Pieces(identity) == Some((address, workerLabel))
  {
    if identity == SRI_SOLO + address && '/' !in address && workerLabel == "" {
      SoloPieces(address, workerLabel, address);
    } else if identity == SRI_SOLO + address + "/" + workerLabel && '/' !in address {
      SoloPieces(address, workerLabel, address + "/" + workerLabel);
      assert identity == SRI_SOLO + (address + "/" + workerLabel);
    } else if HasForm(identity, address, workerLabel) {
      if StartsWith(identity, SRI_SOLO) {
        SoloStartsWithSri(identity);
      }
      if identity == address && workerLabel == "" {
        NoOccurrence(identity, '.');
      } else {
        assert identity == address + ['.'] + workerLabel;
        SplitOnceAfter(address, workerLabel, '.');
      }
    }
  }

  lemma {:induction false} FirstPart(s: string, sep: char)
    ensures var i := IndexOf(s, sep);
            && Split(s, sep)[0] == s[..i] && sep !in s[..i]
            && (i == |s| ==> Split(s, sep) == [s])
            && (i < |s| ==> Split(s, sep)[1..] == Split(s[i + 1..], sep))
  {
    var i := IndexOf(s, sep);
    assert sep !in s[..i];
    if i == |s| {
      assert s[..i] == s;
      SplitOfNone(s, sep);
    } else {
      assert s == s[..i] + [sep] + s[i + 1..];
      SplitAfter(s[..i], s[i + 1..], sep);
    }
  }

  lemma {:induction false} SoloHasForm(rest: string)
    ensures HasForm(SRI_SOLO + rest, Split(rest, '/')[0], Join(Split(rest, '/')[1..], '/'))
  {
    var i := IndexOf(rest, '/');
    FirstPart(rest, '/');
    if i < |rest| {
      JoinOfSplit(rest[i + 1..], '/');
      assert rest == rest[..i] + "/" + rest[i + 1..];
      assert SRI_SOLO + rest == SRI_SOLO + rest[..i] + "/" + rest[i + 1..];
    } else {
      assert rest[..i] == rest && Split(rest, '/')[1..] == [];
    }
  }

  lemma PlainHasForm(identity: string)
    requires !StartsWith(identity, SRI)
    ensures var (address, workerLabel) := SplitOnce(identity, '.').GetOr((identity, ""));
            HasForm(identity, address, workerLabel)
  {
    var i := IndexOf(identity, '.');
    NoOccurrence(identity, '.');
    if i < |identity| {
      assert identity == identity[..i] + "." + identity[i + 1..];
    }
  }

  /** Text with pieces has their form. */
  lemma PiecesHaveForm(identity: string)
    requires Pieces(identity).Some?
    ensures HasForm(identity, Pieces(identity).value.0, Pieces(identity).value.1)
  {
    if StartsWith(identity, SRI_SOLO) {
      assert identity == SRI_SOLO + identity[|SRI_SOLO|..];
      SoloHasForm(identity[|SRI_SOLO|..]);
    } else {
      PlainHasForm(identity);
    }
  }

  /**
   * Exactly which texts are accepted, and as what. A text whose trimmed form has
   * an address and a label is accepted if and only if the trimmed address decodes,
   * in whatever spelling; the payout is then the decoded address and the label the
   * trimmed one, or the default if that is empty. A text without a form is not
   * accepted, and blank text and other texts behind `sri/` have errors of their own.
   */
  lemma AcceptedIff(decode: Decoder, n: Network, text: string)
    ensures forall address, workerLabel :: HasForm(Trim(text), address, workerLabel) && Trim(text) != [] ==>
              if Trim(address) != [] && decode(Trim(address), n).Some? then
                Parse(decode, text, n) == Accepted(Identity(
                  workerLabel := if Trim(workerLabel) == [] then "default" else Trim(workerLabel),
                  payout := decode(Trim(address), n).value,
                  userIdentity := Trim(text)))
              else Parse(decode, text, n) == Rejected(InvalidAddress)
    ensures Trim(text) == [] ==> Parse(decode, text, n) == Rejected(Empty)
    ensures Trim(text) != [] && (forall address, workerLabel :: !HasForm(Trim(text), address, workerLabel)) ==>
              Parse(decode, text, n) == Rejected(Unsupported)
    ensures (exists address, workerLabel :: HasForm(Trim(text), address, workerLabel))
            <==> !("sri/" <= Trim(text)) || "sri/solo/" <= Trim(text)
  {
    forall address, workerLabel | HasForm(Trim(text), address, workerLabel)
      ensures Pieces(Trim(text)) == Some((address, workerLabel))
    {
      FormIsPieces(Trim(text), address, workerLabel);
    }
    if Pieces(Trim(text)).Some? {
      PiecesHaveForm(Trim(text));
    }
  }

  // ----- Miner ids -----

  function NetworkName(n: Network): string {
    match n
    case Mainnet => "mainnet"
    case Testnet4 => "testnet4"
    case Signet => "signet"
    case Regtest => "regtest"
  }

  /** The network that a configured name stands for. */
  function NetworkOf(text: string): Option<Network> {
    match text
    case "mainnet" => Some(Mainnet)
    case "testnet4" => Some(Testnet4)
    case "signet" => Some(Signet)
    case "regtest" => Some(Regtest)
    case _ => None
  }

  /** Networks are read back exactly from the names they are printed as. */
  lemma NetworkNamesRoundTrip(text: string, n: Network)
    ensures NetworkOf(text) == Some(n) <==> text == NetworkName(n)
  {
  }

  function MinerId(n: Network, payout: string, workerLabel: string): string {
    NetworkName(n) + ":" + payout + ":" + Trim(workerLabel)
  }

  function IdOf(n: Network, id: Identity): string {
    MinerId(n, id.payout, id.workerLabel)
  }

  function IdFromIdentity(decode: Decoder, n: Network, text: string): Option<string> {
    match Parse(decode, text, n)
    case Accepted(id) => Some(IdOf(n, id))
    case Rejected(_) => None
  }

  lemma NetworkNames(n: Network, m: Network)
    ensures ':' !in NetworkName(n)
    ensures NetworkName(n) == NetworkName(m) ==> n == m
  {
  }

  lemma MinerIdParts(n: Network, payout: string, workerLabel: string)
    ensures MinerId(n, payout, workerLabel) == NetworkName(n) + [':'] + (payout + [':'] + Trim(workerLabel))
  {
  }

  /** Ids tell networks, payouts and trimmed labels apart, even labels with colons in them. */
  lemma MinerIdIsInjective(
      n: Network, payout: string, workerLabel: string, m: Network, payout': string, workerLabel': string)
    requires AllAlnum(payout) && AllAlnum(payout')
    requires MinerId(n, payout, workerLabel) == MinerId(m, payout', workerLabel')
    ensures n == m && payout == payout' && Trim(workerLabel) == Trim(workerLabel')
  {
    NetworkNames(n, m);
    NetworkNames(m, n);
    AlnumHasNo(payout);
    AlnumHasNo(payout');
    MinerIdParts(n, payout, workerLabel);
    MinerIdParts(m, payout', workerLabel');
    var rest, rest' := payout + [':'] + Trim(workerLabel), payout' + [':'] + Trim(workerLabel');
    SeparatorIsInjective(NetworkName(n), rest, NetworkName(m), rest', ':');
    SeparatorIsInjective(payout, Trim(workerLabel), payout', Trim(workerLabel'), ':');
  }

  /** Two identity texts share a miner id exactly when their payout and label agree. */
  lemma SameIdIffSameMiner(decode: Decoder, n: Network, text: string, text': string)
    requires Canonical(decode)
    requires Parse(decode, text, n).Accepted? && Parse(decode, text', n).Accepted?
    ensures var id, id' := Parse(decode, text, n).identity, Parse(decode, text', n).identity;
            IdFromIdentity(decode, n, text) == IdFromIdentity(decode, n, text')
            <==> id.payout == id'.payout && id.workerLabel == id'.workerLabel
  {
    var id, id' := Parse(decode, text, n).identity, Parse(decode, text', n).identity;
    ParsedIsCanonical(decode, n, text);
    ParsedIsCanonical(decode, n, text');
    TrimmedStays(id.workerLabel);
    TrimmedStays(id'.workerLabel);
    if IdOf(n, id) == IdOf(n, id') {
      MinerIdIsInjective(n, id.payout, id.workerLabel, n, id'.payout, id'.workerLabel);
    }
  }
}
