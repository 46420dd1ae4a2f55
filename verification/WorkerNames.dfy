/**
 * Which worker an identity text belongs to, when two texts share one, and what a
 * worker is called that several texts share.
 */
module WorkerNames {
  import opened Words
  import opened Collecting
  import opened Text
  import opened MinerIdentity
  import opened MinerHistory
  import opened WorkerBuild

  /** The id of workers without any identity text. */
  const BLANK_ID: string := NO_ADDRESS + ":" + INVALID_LABEL

  predicate IsParsed(env: Env, text: string) {
    Parse(env.decode, text, env.network).Accepted?
  }

  lemma ParsedWorkerId(env: Env, userIdentity: string)
    requires Canonical(env.decode) && IsParsed(env, userIdentity)
    ensures var id := Parse(env.decode, userIdentity, env.network).identity;
            && LabelAndPayout(env, userIdentity) == (id.workerLabel, id.payout)
            && WorkerId(env, userIdentity) == IdOf(env.network, id)
            && Some(WorkerId(env, userIdentity)) == IdFromIdentity(env.decode, env.network, userIdentity)
            && id.payout != [] && AllAlnum(id.payout) && Trimmed(id.workerLabel)
  {
    ParsedIsCanonical(env.decode, env.network, userIdentity);
    var id := Parse(env.decode, userIdentity, env.network).identity;
    assert IsAlnum(id.payout[0]) && NO_ADDRESS[0] == '-';
  }

  /** The id of a text that does not parse: the text itself, unless it is blank. */
  function UnparsedId(text: string): string {
    if Trim(text) != [] then text else BLANK_ID
  }

  lemma UnparsedWorkerId(env: Env, text: string)
    requires !IsParsed(env, text)
    ensures WorkerId(env, text) == UnparsedId(text)
    ensures LabelAndPayout(env, text) == (INVALID_LABEL, NO_ADDRESS)
  {
  }

  lemma MinerIdIsNotBlank(n: Network, payout: string, workerLabel: string)
    ensures MinerId(n, payout, workerLabel) != BLANK_ID
  {
    assert MinerId(n, payout, workerLabel)[0] == NetworkName(n)[0];
    assert BLANK_ID[0] == '-';
  }

  /** Two parsed texts share a worker exactly when their payout and label agree. */
  lemma ParsedShareIff(env: Env, text: string, text': string)
    requires Canonical(env.decode) && IsParsed(env, text) && IsParsed(env, text')
    ensures WorkerId(env, text) == WorkerId(env, text') <==> LabelAndPayout(env, text) == LabelAndPayout(env, text')
  {
    ParsedWorkerId(env, text);
    ParsedWorkerId(env, text');
    SameIdIffSameMiner(env.decode, env.network, text, text');
  }

  /** A parsed and an unparsed text share a worker exactly when the second is the miner id of the first. */
  lemma CollidesIff(env: Env, text: string, text': string)
    requires Canonical(env.decode) && IsParsed(env, text) && !IsParsed(env, text')
    ensures WorkerId(env, text) == WorkerId(env, text')
            <==> Trim(text') != [] && IdFromIdentity(env.decode, env.network, text) == Some(text')
  {
    ParsedWorkerId(env, text);
    UnparsedWorkerId(env, text');
    var id := Parse(env.decode, text, env.network).identity;
    MinerIdIsNotBlank(env.network, id.payout, id.workerLabel);
  }

  /**
   * Two identity texts share a worker if and only if both parse with equal payout
   * and label, or neither parses and they are equal, both blank, or one is blank
   * and the other is what blank texts are filed under, or one parses and the other
   * does not but is the miner id of the first.
   */
  lemma SameWorkerIff(env: Env, text: string, text': string)
    requires Canonical(env.decode)
    ensures WorkerId(env, text) == WorkerId(env, text')
            <==> if IsParsed(env, text) && IsParsed(env, text')
                 then LabelAndPayout(env, text) == LabelAndPayout(env, text')
                 else if IsParsed(env, text)
                 then Trim(text') != [] && IdFromIdentity(env.decode, env.network, text) == Some(text')
                 else if IsParsed(env, text')
                 then Trim(text) != [] && IdFromIdentity(env.decode, env.network, text') == Some(text)
                 else text == text' || (Trim(text) == [] && Trim(text') == [])
                      || (Trim(text) == [] && text' == BLANK_ID) || (text == BLANK_ID && Trim(text') == [])
  {
    if IsParsed(env, text) && IsParsed(env, text') {
      ParsedShareIff(env, text, text');
    } else if IsParsed(env, text) {
      CollidesIff(env, text, text');
    } else if IsParsed(env, text') {
      CollidesIff(env, text', text);
    } else {
      UnparsedWorkerId(env, text);
      UnparsedWorkerId(env, text');
      BlankIdIsNotBlank();
    }
  }

  lemma BlankIdIsNotBlank()
    ensures Trim(BLANK_ID) != []
  {
    TrimmedStays(BLANK_ID);
  }

  // ----- The name of a worker -----

  type Name = (string, string)

  /** What a push would call one worker. */
  function NameFor(env: Env, id: string): Push -> Option<Name> {
    (p: Push) => if WorkerId(env, p.userIdentity) == id then Some(LabelAndPayout(env, p.userIdentity)) else None
  }

  /** Label and address of the first push to the worker. */
  function NameOf(env: Env, pushes: seq<Push>, id: string): Option<Name> {
    FirstOf(pushes, NameFor(env, id))
  }

  function EntryName(workers: Workers, id: string): Option<Name> {
    if id in workers then Some((workers[id].workerLabel, workers[id].payout)) else None
  }

  lemma PushedName(env: Env, workers: Workers, p: Push, id: string)
    ensures EntryName(Pushed(env, workers, p), id) == NextOf(EntryName(workers, id), NameFor(env, id)(p))
  {
  }

  /** A worker keeps the name under which it is first pushed. */
  lemma {:induction false} GroupedName(env: Env, pushes: seq<Push>, id: string)
    ensures EntryName(Grouped(env, pushes), id) == NameOf(env, pushes, id)
  {
    if pushes != [] {
      GroupedName(env, pushes[..|pushes| - 1], id);
      PushedName(env, Grouped(env, pushes[..|pushes| - 1]), pushes[|pushes| - 1], id);
    }
  }

  /** A name comes from some push to the worker. */
  lemma NamingPush(env: Env, pushes: seq<Push>, id: string) returns (p: Push)
    requires NameOf(env, pushes, id).Some?
    ensures p in pushes && WorkerId(env, p.userIdentity) == id
    ensures LabelAndPayout(env, p.userIdentity) == NameOf(env, pushes, id).value
  {
    p := FirstComesFrom(pushes, NameFor(env, id));
  }

  /** Every push to a worker leaves it with a name. */
  lemma PushNames(env: Env, pushes: seq<Push>, p: Push)
    requires p in pushes
    ensures NameOf(env, pushes, WorkerId(env, p.userIdentity)).Some?
  {
    FirstExists(pushes, NameFor(env, WorkerId(env, p.userIdentity)), p);
  }

  // ----- Texts that name a worker alike -----

  /** Texts that share a worker agree on its label and address. */
  ghost predicate NamesClear(env: Env, pushes: seq<Push>) {
    forall p, q :: p in pushes && q in pushes && WorkerId(env, p.userIdentity) == WorkerId(env, q.userIdentity) ==>
                     LabelAndPayout(env, p.userIdentity) == LabelAndPayout(env, q.userIdentity)
  }

  /** One of the texts does not parse and is the miner id of the other one, which does. */
  ghost predicate Collide(env: Env, pushes: seq<Push>) {
    exists p, q :: p in pushes && q in pushes && IsIdOf(env, q.userIdentity, p.userIdentity)
  }

  predicate IsIdOf(env: Env, text': string, text: string) {
    && IsParsed(env, text) && !IsParsed(env, text')
    && Trim(text') != [] && IdFromIdentity(env.decode, env.network, text) == Some(text')
  }

  lemma ParsedNameIsNotInvalid(env: Env, text: string)
    requires Canonical(env.decode) && IsParsed(env, text)
    ensures LabelAndPayout(env, text).1 != NO_ADDRESS
  {
    ParsedWorkerId(env, text);
    assert NO_ADDRESS[0] == '-';
  }

  /** Names are clear exactly when no text that does not parse is the miner id of one that does. */
  lemma NamesClearIff(env: Env, pushes: seq<Push>)
    requires Canonical(env.decode)
    ensures NamesClear(env, pushes) <==> !Collide(env, pushes)
  {
    forall p, q | p in pushes && q in pushes
      ensures WorkerId(env, p.userIdentity) == WorkerId(env, q.userIdentity)
              && LabelAndPayout(env, p.userIdentity) != LabelAndPayout(env, q.userIdentity)
              <==> IsIdOf(env, q.userIdentity, p.userIdentity) || IsIdOf(env, p.userIdentity, q.userIdentity)
    {
      UnclearIff(env, p.userIdentity, q.userIdentity);
    }
  }

  /** Two texts share a worker but no name exactly when one does not parse and is the miner id of the other. */
  lemma UnclearIff(env: Env, text: string, text': string)
    requires Canonical(env.decode)
    ensures WorkerId(env, text) == WorkerId(env, text') && LabelAndPayout(env, text) != LabelAndPayout(env, text')
            <==> IsIdOf(env, text', text) || IsIdOf(env, text, text')
  {
    if IsParsed(env, text) && !IsParsed(env, text') {
      CollidesIff(env, text, text');
    } else if !IsParsed(env, text) && IsParsed(env, text') {
      CollidesIff(env, text', text);
    }
    if WorkerId(env, text) == WorkerId(env, text') {
      SharedNameIff(env, text, text');
    }
  }

  lemma SharedNameIff(env: Env, text: string, text': string)
    requires Canonical(env.decode) && WorkerId(env, text) == WorkerId(env, text')
    ensures LabelAndPayout(env, text) == LabelAndPayout(env, text') <==> (IsParsed(env, text) <==> IsParsed(env, text'))
  {
    if IsParsed(env, text) && IsParsed(env, text') {
      ParsedShareIff(env, text, text');
    } else if IsParsed(env, text) {
      ParsedNameIsNotInvalid(env, text);
      UnparsedWorkerId(env, text');
    } else if IsParsed(env, text') {
      ParsedNameIsNotInvalid(env, text');
      UnparsedWorkerId(env, text);
    } else {
      UnparsedWorkerId(env, text);
      UnparsedWorkerId(env, text');
    }
  }
}
