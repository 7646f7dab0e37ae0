/** Session keys: how they are built and parsed. */
module SessionKey {
  import opened Text
  import opened AgentID

  const MAIN_KEY := "main"
  const SCOPE_MAIN := "main"
  const SCOPE_PEER := "per-peer"
  const SCOPE_CHANNEL := "per-channel-peer"
  const SCOPE_ACCOUNT := "per-account-channel-peer"

  datatype Peer = Peer(kind: string, id: string)

  /** `links` lists the identity links in the order in which the map happens to be visited. */
  datatype Params = Params(
    agentID: string, channel: string, accountID: string, peer: Option<Peer>, dmScope: string,
    links: seq<(string, seq<string>)>)

  /** `%s:%s` */
  function Colon(a: string, b: string): string {
    a + ":" + b
  }

  function BuildMain(agentID: string): string {
    Colon("agent", Colon(NormalizeAgentID(agentID), MAIN_KEY))
  }

  function NormalizeChannel(channel: string): string {
    var c := TrimSpace(ToLower(channel));
    if c == "" then "unknown" else c
  }

  /** The spellings under which a peer may be listed: its id, alone and with the channel in front. */
  function Candidates(channel: string, peerID: string): set<string> {
    var raw, ch := ToLower(peerID), ToLower(TrimSpace(channel));
    (if raw != "" then {raw} else {}) + (if ch != "" then {Colon(ch, raw)} else {})
  }

  predicate IsIn(id: string, candidates: set<string>) {
    var c := ToLower(TrimSpace(id));
    c != "" && c in candidates
  }

  predicate LinkMatches(link: (string, seq<string>), channel: string, peerID: string) {
    TrimSpace(link.0) != "" && exists id <- link.1 :: IsIn(id, Candidates(channel, peerID))
  }

  /** The canonical name of the first matching link, or "". */
  function FirstMatch(links: seq<(string, seq<string>)>, channel: string, peerID: string): (r: string)
    ensures r == "" <==> forall l <- links :: !LinkMatches(l, channel, peerID)
    ensures r != "" ==> exists l <- links :: LinkMatches(l, channel, peerID) && r == TrimSpace(l.0)
  {
    if links == [] then ""
    else if LinkMatches(links[0], channel, peerID) then TrimSpace(links[0].0)
    else FirstMatch(links[1..], channel, peerID)
  }

  function ResolveLinkedPeerID(links: seq<(string, seq<string>)>, channel: string, peerID: string): string {
    var id := TrimSpace(peerID);
    if id == "" then "" else FirstMatch(links, channel, id)
  }

  /**
   * The link has a name and lists the peer, by its id alone or by channel and id. Case and whitespace at the
   * ends make no difference.
   */
  ghost predicate Names(link: (string, seq<string>), channel: string, peer: string) {
    var p, c := ToLower(TrimSpace(peer)), ToLower(TrimSpace(channel));
    TrimSpace(link.0) != "" &&
    exists id <- link.1 :: ToLower(TrimSpace(id)) == p || (c != "" && ToLower(TrimSpace(id)) == c + ":" + p)
  }

  lemma MatchesIffNames(link: (string, seq<string>), channel: string, peer: string)
    requires TrimSpace(peer) != ""
    ensures LinkMatches(link, channel, TrimSpace(peer)) <==> Names(link, channel, peer)
  {
    var p, c := ToLower(TrimSpace(peer)), ToLower(TrimSpace(channel));
    assert p != "";
    forall id <- link.1
      ensures IsIn(id, Candidates(channel, TrimSpace(peer)))
         <==> ToLower(TrimSpace(id)) == p || (c != "" && ToLower(TrimSpace(id)) == c + ":" + p)
    {
    }
  }

  /** `r` is the name of a link that lists the peer if there is one, and empty otherwise. */
  ghost predicate IsLinkedName(r: string, links: seq<(string, seq<string>)>, channel: string, peer: string) {
    if TrimSpace(peer) != "" && exists l <- links :: Names(l, channel, peer)
    then exists l <- links :: Names(l, channel, peer) && r == TrimSpace(l.0)
    else r == ""
  }

  lemma ResolvedIsLinkedName(links: seq<(string, seq<string>)>, channel: string, peer: string)
    ensures IsLinkedName(ResolveLinkedPeerID(links, channel, peer), links, channel, peer)
  {
    if TrimSpace(peer) != "" {
      forall l <- links
        ensures LinkMatches(l, channel, TrimSpace(peer)) <==> Names(l, channel, peer)
      {
        MatchesIffNames(l, channel, peer);
      }
    }
  }

  /** The search as the source writes it: a set of candidates and two nested loops. */
  method FindLinkedPeerID(links: seq<(string, seq<string>)>, channel: string, peer: string) returns (r: string)
    ensures r == ResolveLinkedPeerID(links, channel, peer)
    ensures IsLinkedName(r, links, channel, peer)
  {
    if |links| == 0 {
      return "";
    }
    var peerID := TrimSpace(peer);
    if peerID == "" {
      return "";
    }
    var candidates := FillCandidates(channel, peerID);
    r := FirstLinked(links, channel, peerID, candidates);
    ResolvedIsLinkedName(links, channel, peer);
  }

  method FirstLinked(links: seq<(string, seq<string>)>, ghost channel: string, ghost peerID: string,
                     candidates: set<string>)
    returns (r: string)
    requires candidates == Candidates(channel, peerID)
    ensures r == FirstMatch(links, channel, peerID)
  {
    for i := 0 to |links|
      invariant FirstMatch(links, channel, peerID) == FirstMatch(links[i..], channel, peerID)
    {
      var canonicalName := TrimSpace(links[i].0);
      assert links[i..][1..] == links[i + 1..];
      if canonicalName == "" {
        continue;
      }
      var found := AnyCandidate(links[i].1, candidates);
      if found {
        return canonicalName;
      }
    }
    return "";
  }

  method FillCandidates(channel: string, peerID: string) returns (candidates: set<string>)
    ensures candidates == Candidates(channel, peerID)
  {
    candidates := {};
    var rawCandidate := ToLower(peerID);
    if rawCandidate != "" {
      candidates := candidates + {rawCandidate};
    }
    var ch := ToLower(TrimSpace(channel));
    if ch != "" {
      var scopedCandidate := Colon(ch, rawCandidate);
      candidates := candidates + {scopedCandidate};
    }
  }

  method AnyCandidate(ids: seq<string>, candidates: set<string>) returns (found: bool)
    ensures found <==> exists id <- ids :: IsIn(id, candidates)
  {
    for k := 0 to |ids|
      invariant forall j | 0 <= j < k :: !IsIn(ids[j], candidates)
    {
      var normalized := ToLower(TrimSpace(ids[k]));
      if normalized != "" && normalized in candidates {
        assert IsIn(ids[k], candidates);
        return true;
      }
    }
    return false;
  }

  /** The normalized parts of a key; `peerID` is what the identity links resolve it to. */
  datatype Parts = Parts(kind: string, scope: string, channel: string, account: string, peerID: string)

  function KindOf(p: Params): string {
    if p.peer.None? || TrimSpace(p.peer.value.kind) == "" then "direct" else TrimSpace(p.peer.value.kind)
  }

  function PeerIDOf(p: Params): string {
    var id := if p.peer.None? then "" else TrimSpace(p.peer.value.id);
    if KindOf(p) != "direct" then (if id == "" then "unknown" else ToLower(id))
    else if p.dmScope == "" || p.dmScope == SCOPE_MAIN || id == "" then ToLower(id)
    else
      var linked := ResolveLinkedPeerID(p.links, p.channel, id);
      ToLower(if linked != "" then linked else id)
  }

  function PartsOf(p: Params): Parts {
    Parts(KindOf(p), p.dmScope, NormalizeChannel(p.channel), NormalizeAccountID(p.accountID), PeerIDOf(p))
  }

  /** The key, following the source's branches. */
  function BuildFrom(agentID: string, p: Parts): string {
    if p.kind == "direct" then
      if p.scope == SCOPE_ACCOUNT && p.peerID != "" then
        Colon("agent", Colon(agentID, Colon(p.channel, Colon(p.account, Colon("direct", p.peerID)))))
      else if p.scope == SCOPE_CHANNEL && p.peerID != "" then
        Colon("agent", Colon(agentID, Colon(p.channel, Colon("direct", p.peerID))))
      else if p.scope == SCOPE_PEER && p.peerID != "" then
        Colon("agent", Colon(agentID, Colon("direct", p.peerID)))
      else BuildMain(agentID)
    else
      Colon("agent", Colon(agentID, Colon(p.channel, Colon(p.kind, p.peerID))))
  }

  function BuildPeer(p: Params): string {
    BuildFrom(NormalizeAgentID(p.agentID), PartsOf(p))
  }

  predicate IsDirect(p: Params) {
    p.peer.None? || TrimSpace(p.peer.value.kind) == "" || TrimSpace(p.peer.value.kind) == "direct"
  }

  lemma DirectPart(p: Params)
    requires IsDirect(p) && p.peer.Some?
    ensures var id := p.peer.value.id;
            PeerIDOf(p) ==
            if TrimSpace(id) == "" || p.dmScope == "" || p.dmScope == "main" then ToLower(TrimSpace(id))
            else
              var linked := ResolveLinkedPeerID(p.links, p.channel, id);
              ToLower(if linked != "" then linked else TrimSpace(id))
  {
    TrimSpaceTrims(p.peer.value.id);
    TrimSpaceFixed(TrimSpace(p.peer.value.id));
  }

  /** A direct peer is called by the name it is linked to, if any, wherever direct messages are kept apart. */
  lemma DirectPeerPart(p: Params)
    requires IsDirect(p)
    ensures var id := if p.peer.None? then "" else p.peer.value.id;
            if TrimSpace(id) == "" then PeerIDOf(p) == ""
            else if p.dmScope == "" || p.dmScope == "main" || forall l <- p.links :: !Names(l, p.channel, id) then
              PeerIDOf(p) == ToLower(TrimSpace(id))
            else
              exists l <- p.links :: Names(l, p.channel, id) && PeerIDOf(p) == ToLower(TrimSpace(l.0))
  {
    if p.peer.Some? {
      var id := p.peer.value.id;
      DirectPart(p);
      ResolvedIsLinkedName(p.links, p.channel, id);
      if TrimSpace(id) != "" && exists l <- p.links :: Names(l, p.channel, id) {
        var linked := ResolveLinkedPeerID(p.links, p.channel, id);
        var l :| l in p.links && Names(l, p.channel, id) && linked == TrimSpace(l.0);
        assert linked != "";
      }
    }
  }

  lemma AgentColon(a: string, b: string)
    ensures Colon("agent", Colon(a, b)) == "agent:" + a + ":" + b
  {
    assert "agent" + ":" == "agent:";
  }

  lemma ColonSplit(pre: string, a: string, b: string)
    ensures pre + Colon(a, b) == pre + a + ":" + b
  {
  }

  lemma AgentColons(a: string, b: string, c: string)
    ensures Colon("agent", Colon(a, Colon(b, c))) == "agent:" + a + ":" + b + ":" + c
  {
    AgentColon(a, Colon(b, c));
    ColonSplit("agent:" + a + ":", b, c);
  }

  lemma MoreAgentColons(a: string, b: string, c: string, d: string)
    ensures Colon("agent", Colon(a, Colon(b, Colon(c, d)))) == "agent:" + a + ":" + b + ":" + c + ":" + d
  {
    AgentColons(a, b, Colon(c, d));
    ColonSplit("agent:" + a + ":" + b + ":", c, d);
  }

  lemma MostAgentColons(a: string, b: string, c: string, d: string, e: string)
    ensures Colon("agent", Colon(a, Colon(b, Colon(c, Colon(d, e)))))
         == "agent:" + a + ":" + b + ":" + c + ":" + d + ":" + e
  {
    MoreAgentColons(a, b, c, Colon(d, e));
    ColonSplit("agent:" + a + ":" + b + ":" + c + ":", d, e);
  }

  lemma PartsKey(agent: string, p: Parts)
    ensures BuildFrom(agent, p) ==
            if p.kind != "direct" then "agent:" + agent + ":" + p.channel + ":" + p.kind + ":" + p.peerID
            else if p.peerID == "" then "agent:" + NormalizeAgentID(agent) + ":" + "main"
            else if p.scope == "per-peer" then "agent:" + agent + ":" + "direct" + ":" + p.peerID
            else if p.scope == "per-channel-peer" then
              "agent:" + agent + ":" + p.channel + ":" + "direct" + ":" + p.peerID
            else if p.scope == "per-account-channel-peer" then
              "agent:" + agent + ":" + p.channel + ":" + p.account + ":" + "direct" + ":" + p.peerID
            else "agent:" + NormalizeAgentID(agent) + ":" + "main"
  {
    AgentColon(NormalizeAgentID(agent), "main");
    AgentColons(agent, "direct", p.peerID);
    MoreAgentColons(agent, p.channel, "direct", p.peerID);
    MoreAgentColons(agent, p.channel, p.kind, p.peerID);
    MostAgentColons(agent, p.channel, p.account, "direct", p.peerID);
  }

  /** The channel in a key. */
  lemma ChannelPart(p: Params)
    ensures var c := TrimSpace(ToLower(p.channel)); PartsOf(p).channel == if c == "" then "unknown" else c
  {
  }

  /** The keys of direct messages by scope: the peer's own, its own in each channel or account, or the main key. */
  lemma DirectKey(p: Params)
    requires IsDirect(p)
    ensures var agent, channel, peer := NormalizeAgentID(p.agentID), PartsOf(p).channel, PeerIDOf(p);
            BuildPeer(p) ==
            if peer == "" then "agent:" + NormalizeAgentID(agent) + ":" + "main"
            else if p.dmScope == "per-peer" then "agent:" + agent + ":" + "direct" + ":" + peer
            else if p.dmScope == "per-channel-peer" then "agent:" + agent + ":" + channel + ":" + "direct" + ":" + peer
            else if p.dmScope == "per-account-channel-peer" then
              "agent:" + agent + ":" + channel + ":" + NormalizeAccountID(p.accountID) + ":" + "direct" + ":" + peer
            else "agent:" + NormalizeAgentID(agent) + ":" + "main"
  {
    assert KindOf(p) == "direct";
    PartsKey(NormalizeAgentID(p.agentID), PartsOf(p));
  }

  lemma GroupPart(p: Params)
    requires !IsDirect(p)
    ensures KindOf(p) == TrimSpace(p.peer.value.kind) != "direct"
    ensures var id := TrimSpace(p.peer.value.id); PeerIDOf(p) == if id == "" then "unknown" else ToLower(id)
  {
  }

  /** Any other peer has a key of its own, with its channel and kind. */
  lemma GroupKey(p: Params)
    requires !IsDirect(p)
    ensures var id := TrimSpace(p.peer.value.id);
            BuildPeer(p) == "agent:" + NormalizeAgentID(p.agentID) + ":" + PartsOf(p).channel + ":"
                            + TrimSpace(p.peer.value.kind) + ":" + if id == "" then "unknown" else ToLower(id)
  {
    GroupPart(p);
    PartsKey(NormalizeAgentID(p.agentID), PartsOf(p));
  }

  /** Every link that lists the peer has the given name, and there is one. */
  ghost predicate LinkedTo(p: Params, name: string) {
    && p.peer.Some? && IsDirect(p) && TrimSpace(p.peer.value.id) != ""
    && (exists l <- p.links :: Names(l, p.channel, p.peer.value.id))
    && forall l <- p.links | Names(l, p.channel, p.peer.value.id) :: TrimSpace(l.0) == name
  }

  lemma LinkedPart(p: Params, name: string)
    requires p.dmScope == "per-peer" && LinkedTo(p, name)
    ensures PeerIDOf(p) == ToLower(name)
  {
    DirectPeerPart(p);
    assert !(forall l <- p.links :: !Names(l, p.channel, p.peer.value.id));
    assert p.dmScope != "" && p.dmScope != "main";
  }

  /** Peers of different channels that are linked to one name share a session. */
  lemma LinkedPeersShareKey(p: Params, q: Params, name: string)
    requires p.agentID == q.agentID && p.dmScope == q.dmScope == "per-peer" && LinkedTo(p, name) && LinkedTo(q, name)
    ensures BuildPeer(p) == BuildPeer(q)
  {
    LinkedPart(p, name);
    LinkedPart(q, name);
    DirectKey(p);
    DirectKey(q);
  }

  datatype Parsed = Parsed(agentID: string, rest: string)

  /** The text before the first colon and the text after it. */
  function CutAtColon(s: string): Option<(string, string)> {
    var n := IndexFrom(s, 0, ':');
    if n < 0 then None else Some((s[..n], s[n + 1..]))
  }

  function Parse(key: string): Option<Parsed> {
    var raw := TrimSpace(key);
    match CutAtColon(raw)
    case None => None
    case Some((head, tail)) =>
      match CutAtColon(tail)
      case None => None
      case Some((id, rest)) =>
        if head != "agent" || TrimSpace(id) == "" || rest == "" then None
        else Some(Parsed(TrimSpace(id), rest))
  }

  // ----- routes

  /** What a key stands for, beside the agent. */
  datatype Route =
    | Main
    | PerPeer(peer: string)
    | PerChannel(channel: string, peer: string)
    | PerAccount(channel: string, account: string, peer: string)
    | Group(channel: string, kind: string, peer: string)

  function RouteFrom(p: Parts): Route {
    if p.kind != "direct" then Group(p.channel, p.kind, p.peerID)
    else if p.peerID == "" then Main
    else if p.scope == SCOPE_ACCOUNT then PerAccount(p.channel, p.account, p.peerID)
    else if p.scope == SCOPE_CHANNEL then PerChannel(p.channel, p.peerID)
    else if p.scope == SCOPE_PEER then PerPeer(p.peerID)
    else Main
  }

  function RouteOf(p: Params): Route {
    RouteFrom(PartsOf(p))
  }

  function RestOf(r: Route): string {
    match r
    case Main => MAIN_KEY
    case PerPeer(peer) => Colon("direct", peer)
    case PerChannel(channel, peer) => Colon(channel, Colon("direct", peer))
    case PerAccount(channel, account, peer) => Colon(channel, Colon(account, Colon("direct", peer)))
    case Group(channel, kind, peer) => Colon(channel, Colon(kind, peer))
  }

  /** The agent id in the key: the main key built for a peer normalizes it twice. */
  function KeyAgent(p: Params): string {
    var n := NormalizeAgentID(p.agentID);
    if RouteOf(p).Main? then NormalizeAgentID(n) else n
  }

  function Key(agent: string, rest: string): string {
    Colon("agent", Colon(agent, rest))
  }

  lemma FromIsKey(agentID: string, p: Parts)
    ensures var r := RouteFrom(p);
            BuildFrom(agentID, p) == Key(if r.Main? then NormalizeAgentID(agentID) else agentID, RestOf(r))
  {
  }

  lemma BuildIsKey(p: Params)
    ensures BuildPeer(p) == Key(KeyAgent(p), RestOf(RouteOf(p)))
  {
    FromIsKey(NormalizeAgentID(p.agentID), PartsOf(p));
  }

  lemma CutAtFirstColon(a: string, b: string)
    requires ':' !in a
    ensures CutAtColon(Colon(a, b)) == Some((a, b))
  {
    var s := Colon(a, b);
    assert s[|a|] == ':';
    IndexFromIsFirst(s, 0, ':', |a|);
    assert forall i | 0 <= i < |a| :: s[i] == a[i];
    assert IndexFrom(s, 0, ':') == |a|;
    assert s[..|a|] == a && s[|a| + 1..] == b;
  }

  /** Two texts joined at a colon determine each other's parts when the first has no colon. */
  lemma JoinInjective(a: string, r: string, b: string, s: string)
    requires ':' !in a && ':' !in b && Colon(a, r) == Colon(b, s)
    ensures a == b && r == s
  {
    CutAtFirstColon(a, r);
    CutAtFirstColon(b, s);
  }

  lemma ParseKey(agent: string, rest: string)
    requires ProperID(agent) && rest != "" && !IsSpace(rest[|rest| - 1])
    ensures Parse(Key(agent, rest)) == Some(Parsed(agent, rest))
  {
    var key := Key(agent, rest);
    assert key[0] == 'a' && key[|key| - 1] == rest[|rest| - 1];
    TrimSpaceFixed(key);
    CutAtFirstColon("agent", Colon(agent, rest));
    ProperIsPlain(agent);
    CutAtFirstColon(agent, rest);
  }

  lemma LowerTrimmed(s: string)
    requires s != "" && Trimmed(s)
    ensures ToLower(s) != "" && !IsSpace(ToLower(s)[|s| - 1])
  {
  }

  /** A text that is not empty and does not end in whitespace. */
  ghost predicate EndsPlain(s: string) {
    s != "" && !IsSpace(s[|s| - 1])
  }

  lemma ColonEndsPlain(a: string, b: string)
    requires EndsPlain(b)
    ensures EndsPlain(Colon(a, b))
  {
    assert Colon(a, b)[|Colon(a, b)| - 1] == b[|b| - 1];
  }

  ghost predicate PeerEndsPlain(r: Route) {
    r.Main? || EndsPlain(r.peer)
  }

  lemma RestEndsPlain(r: Route)
    requires PeerEndsPlain(r)
    ensures EndsPlain(RestOf(r))
  {
    if !r.Main? {
      ColonEndsPlain("direct", r.peer);
    }
    match r
    case PerChannel(channel, peer) => ColonEndsPlain(channel, Colon("direct", peer));
    case PerAccount(channel, account, peer) =>
      ColonEndsPlain(account, Colon("direct", peer));
      ColonEndsPlain(channel, Colon(account, Colon("direct", peer)));
    case Group(channel, kind, peer) =>
      ColonEndsPlain(kind, peer);
      ColonEndsPlain(channel, Colon(kind, peer));
    case _ =>
  }

  lemma LinkedEndsPlain(links: seq<(string, seq<string>)>, channel: string, peerID: string)
    ensures var linked := ResolveLinkedPeerID(links, channel, peerID);
            linked != "" ==> EndsPlain(ToLower(linked))
  {
    var linked := ResolveLinkedPeerID(links, channel, peerID);
    if linked != "" {
      var l :| l in links && linked == TrimSpace(l.0);
      TrimSpaceTrims(l.0);
      LowerTrimmed(linked);
    }
  }

  lemma LowerEndsPlain(id: string)
    ensures ToLower(TrimSpace(id)) != "" ==> EndsPlain(ToLower(TrimSpace(id)))
  {
    TrimSpaceTrims(id);
    if TrimSpace(id) != "" {
      LowerTrimmed(TrimSpace(id));
    }
  }

  lemma PeerIDEndsPlain(p: Params)
    ensures PeerIDOf(p) != "" ==> EndsPlain(PeerIDOf(p))
    ensures KindOf(p) != "direct" ==> PeerIDOf(p) != ""
  {
    if p.peer.Some? {
      LowerEndsPlain(p.peer.value.id);
      if IsDirect(p) {
        DirectPart(p);
        LinkedEndsPlain(p.links, p.channel, p.peer.value.id);
      } else {
        GroupPart(p);
      }
    }
  }

  lemma RouteEndsPlain(p: Parts)
    requires (p.peerID != "" ==> EndsPlain(p.peerID)) && (p.kind != "direct" ==> p.peerID != "")
    ensures EndsPlain(RestOf(RouteFrom(p)))
  {
    RestEndsPlain(RouteFrom(p));
  }

  lemma KeyAgentProper(p: Params)
    ensures ProperID(KeyAgent(p))
  {
    NormalizedIsProper(p.agentID, DEFAULT_AGENT);
    NormalizedIsProper(NormalizeAgentID(p.agentID), DEFAULT_AGENT);
  }

  lemma CutAtColonIff(s: string, a: string, b: string)
    ensures CutAtColon(s) == Some((a, b)) <==> ':' !in a && s == Colon(a, b)
  {
    if CutAtColon(s) == Some((a, b)) {
      forall i | 0 <= i < |a|
        ensures a[i] != ':'
      {
        if s[i] == ':' {
          IndexFromIsFirst(s, 0, ':', i);
        }
      }
    }
    if ':' !in a && s == Colon(a, b) {
      CutAtFirstColon(a, b);
    }
  }

  /** A key parses exactly if it is "agent", an id that is not blank, and a rest that is not empty, between colons. */
  lemma ParsesIff(key: string, r: Parsed)
    ensures Parse(key) == Some(r) <==>
            exists id :: && ':' !in id && TrimSpace(key) == Colon("agent", Colon(id, r.rest))
                         && r.agentID == TrimSpace(id) != "" && r.rest != ""
  {
    var raw := TrimSpace(key);
    if Parse(key) == Some(r) {
      var (head, tail) := CutAtColon(raw).value;
      var (id, rest) := CutAtColon(tail).value;
      CutAtColonIff(raw, head, tail);
      CutAtColonIff(tail, id, rest);
    }
    if id :| && ':' !in id && raw == Colon("agent", Colon(id, r.rest))
             && r.agentID == TrimSpace(id) != "" && r.rest != ""
    {
      CutAtFirstColon("agent", Colon(id, r.rest));
      CutAtFirstColon(id, r.rest);
    }
  }

  /** Every built key parses, to the agent id it was built with and what stands for the peer. */
  lemma ParseOfBuilt(p: Params)
    ensures Parse(BuildPeer(p)) == Some(Parsed(KeyAgent(p), RestOf(RouteOf(p))))
  {
    var agent, rest := KeyAgent(p), RestOf(RouteOf(p));
    assert EndsPlain(rest) by {
      PeerIDEndsPlain(p);
      RouteEndsPlain(PartsOf(p));
    }
    assert ProperID(agent) by { KeyAgentProper(p); }
    assert BuildPeer(p) == Key(agent, rest) by { BuildIsKey(p); }
    ParseKey(agent, rest);
  }

  /**
   * Parsing gives back the normalized agent id exactly when the key is not a main key, or normalizing does
   * not cut the id at a dash.
   */
  lemma ParsedAgentIff(p: Params)
    ensures Parse(BuildPeer(p)).Some?
    ensures Parse(BuildPeer(p)).value.agentID == NormalizeAgentID(p.agentID)
            <==> !(RouteOf(p).Main? && CutAtDash(p.agentID))
  {
    ParseOfBuilt(p);
    NormalizeIdempotentIff(p.agentID);
  }

  lemma ParseOfMain(agentID: string)
    ensures Parse(BuildMain(agentID)) == Some(Parsed(NormalizeAgentID(agentID), MAIN_KEY))
  {
    NormalizedIsProper(agentID, DEFAULT_AGENT);
    ParseKey(NormalizeAgentID(agentID), MAIN_KEY);
  }

  // ----- injectivity

  /** Channel, account and kind have no colons, and a group's kind is not that of a direct message. */
  ghost predicate ColonFree(r: Route) {
    match r
    case PerChannel(channel, _) => ':' !in channel
    case PerAccount(channel, account, _) => ':' !in channel && ':' !in account
    case Group(channel, kind, _) => ':' !in channel && ':' !in kind && kind != "direct"
    case _ => true
  }

  /**
   * Different routes with the same key: a channel or an account is called "direct", or an account like the
   * kind of a peer, and the other peer's id makes up for the difference.
   */
  ghost predicate Collide(r: Route, s: Route) {
    match (r, s)
    case (PerPeer(p), PerChannel(channel, q)) => channel == "direct" && p == Colon("direct", q)
    case (PerPeer(p), PerAccount(channel, account, q)) => channel == "direct" && p == Colon(account, Colon("direct", q))
    case (PerPeer(p), Group(channel, kind, q)) => channel == "direct" && p == Colon(kind, q)
    case (PerChannel(c, p), PerAccount(channel, account, q)) =>
      c == channel && account == "direct" && p == Colon("direct", q)
    case (PerAccount(c, account, p), Group(channel, kind, q)) =>
      c == channel && account == kind && q == Colon("direct", p)
    case _ => false
  }

  lemma JoinIff(a: string, r: string, b: string, s: string)
    requires ':' !in a && ':' !in b
    ensures Colon(a, r) == Colon(b, s) <==> a == b && r == s
  {
    if Colon(a, r) == Colon(b, s) {
      JoinInjective(a, r, b, s);
    }
  }

  lemma PeerRests(r: Route, s: Route)
    requires r.PerPeer? && !s.Main? && ColonFree(s)
    ensures RestOf(r) == RestOf(s) <==> r == s || Collide(r, s)
  {
    match s
    case PerPeer(q) => JoinIff("direct", r.peer, "direct", q);
    case PerChannel(channel, q) => JoinIff("direct", r.peer, channel, Colon("direct", q));
    case PerAccount(channel, account, q) => JoinIff("direct", r.peer, channel, Colon(account, Colon("direct", q)));
    case Group(channel, kind, q) => JoinIff("direct", r.peer, channel, Colon(kind, q));
  }

  lemma ChannelRests(r: Route, s: Route)
    requires r.PerChannel? && !s.Main? && !s.PerPeer? && ColonFree(r) && ColonFree(s)
    ensures RestOf(r) == RestOf(s) <==> r == s || Collide(r, s)
  {
    var a := Colon("direct", r.peer);
    match s
    case PerChannel(channel, q) =>
      JoinIff(r.channel, a, channel, Colon("direct", q));
      JoinIff("direct", r.peer, "direct", q);
    case PerAccount(channel, account, q) =>
      JoinIff(r.channel, a, channel, Colon(account, Colon("direct", q)));
      JoinIff("direct", r.peer, account, Colon("direct", q));
    case Group(channel, kind, q) =>
      JoinIff(r.channel, a, channel, Colon(kind, q));
      JoinIff("direct", r.peer, kind, q);
  }

  lemma AccountRests(r: Route, s: Route)
    requires r.PerAccount? && (s.PerAccount? || s.Group?) && ColonFree(r) && ColonFree(s)
    ensures RestOf(r) == RestOf(s) <==> r == s || Collide(r, s)
  {
    var a := Colon("direct", r.peer);
    match s
    case PerAccount(channel, account, q) =>
      JoinIff(r.channel, Colon(r.account, a), channel, Colon(account, Colon("direct", q)));
      JoinIff(r.account, a, account, Colon("direct", q));
      JoinIff("direct", r.peer, "direct", q);
    case Group(channel, kind, q) =>
      JoinIff(r.channel, Colon(r.account, a), channel, Colon(kind, q));
      JoinIff(r.account, a, kind, q);
  }

  lemma GroupRests(r: Route, s: Route)
    requires r.Group? && s.Group? && ColonFree(r) && ColonFree(s)
    ensures RestOf(r) == RestOf(s) <==> r == s
  {
    JoinIff(r.channel, Colon(r.kind, r.peer), s.channel, Colon(s.kind, s.peer));
    JoinIff(r.kind, r.peer, s.kind, s.peer);
  }

  lemma MainRestAlone(r: Route)
    requires !r.Main?
    ensures RestOf(r) != MAIN_KEY
  {
    assert ':' in RestOf(r) by {
      assert RestOf(r)[if r.PerPeer? then |"direct"| else |r.channel|] == ':';
    }
    assert ':' !in MAIN_KEY;
  }

  /** The order in which the routes are declared. */
  function Rank(r: Route): nat {
    match r
    case Main => 0
    case PerPeer(_) => 1
    case PerChannel(_, _) => 2
    case PerAccount(_, _, _) => 3
    case Group(_, _, _) => 4
  }

  lemma OrderedRestsIff(r: Route, s: Route)
    requires ColonFree(r) && ColonFree(s) && Rank(r) <= Rank(s)
    ensures RestOf(r) == RestOf(s) <==> r == s || Collide(r, s)
  {
    match r
    case Main => if !s.Main? { MainRestAlone(s); }
    case PerPeer(_) => PeerRests(r, s);
    case PerChannel(_, _) => ChannelRests(r, s);
    case PerAccount(_, _, _) => AccountRests(r, s);
    case Group(_, _, _) => GroupRests(r, s);
  }

  /** Where the texts that stand for two routes coincide. */
  lemma RestsEqualIff(r: Route, s: Route)
    requires ColonFree(r) && ColonFree(s)
    ensures RestOf(r) == RestOf(s) <==> r == s || Collide(r, s) || Collide(s, r)
  {
    if Rank(r) <= Rank(s) {
      OrderedRestsIff(r, s);
    } else {
      OrderedRestsIff(s, r);
    }
  }

  /** No colon in channel or kind. */
  ghost predicate PlainParams(p: Params) {
    ':' !in NormalizeChannel(p.channel) && ':' !in KindOf(p)
  }

  lemma RouteColonFree(p: Parts)
    requires ':' !in p.channel && ':' !in p.account && ':' !in p.kind
    ensures ColonFree(RouteFrom(p))
  {
  }

  lemma AccountColonFree(id: string)
    ensures ':' !in NormalizeAccountID(id)
  {
    NormalizedIsProper(id, DEFAULT_ACCOUNT);
    ProperIsPlain(NormalizeAccountID(id));
  }

  lemma RouteShape(p: Params)
    requires PlainParams(p)
    ensures ColonFree(RouteOf(p))
  {
    AccountColonFree(p.accountID);
    RouteColonFree(PartsOf(p));
  }

  /**
   * Whatever the scopes for direct messages, with no colons in channels and kinds two keys are equal
   * exactly when agent and route are, or when the routes collide.
   */
  lemma KeysEqualIff(p: Params, q: Params)
    requires PlainParams(p) && PlainParams(q)
    ensures BuildPeer(p) == BuildPeer(q) <==>
            && KeyAgent(p) == KeyAgent(q)
            && (RouteOf(p) == RouteOf(q) || Collide(RouteOf(p), RouteOf(q)) || Collide(RouteOf(q), RouteOf(p)))
  {
    ParseOfBuilt(p);
    ParseOfBuilt(q);
    BuildIsKey(p);
    BuildIsKey(q);
    RouteShape(p);
    RouteShape(q);
    RestsEqualIff(RouteOf(p), RouteOf(q));
  }

  lemma RouteOfScope(p: Params)
    ensures RouteOf(p).PerPeer? ==> p.dmScope == SCOPE_PEER
    ensures RouteOf(p).PerChannel? ==> p.dmScope == SCOPE_CHANNEL
    ensures RouteOf(p).PerAccount? ==>
              p.dmScope == SCOPE_ACCOUNT && RouteOf(p).account == NormalizeAccountID(p.accountID)
    ensures RouteOf(p).Group? ==> RouteOf(p).kind == KindOf(p)
  {
  }

  /** With per-account keys nothing collides when no account id is the kind of a peer. */
  lemma PerAccountKeysInjective(p: Params, q: Params)
    requires p.dmScope == q.dmScope == SCOPE_ACCOUNT && PlainParams(p) && PlainParams(q)
    requires NormalizeAccountID(p.accountID) != KindOf(q) && NormalizeAccountID(q.accountID) != KindOf(p)
    ensures BuildPeer(p) == BuildPeer(q) <==> KeyAgent(p) == KeyAgent(q) && RouteOf(p) == RouteOf(q)
  {
    RouteOfScope(p);
    RouteOfScope(q);
    KeysEqualIff(p, q);
  }

  /** With per-channel keys nothing collides. */
  lemma PerChannelKeysInjective(p: Params, q: Params)
    requires p.dmScope == q.dmScope == SCOPE_CHANNEL && PlainParams(p) && PlainParams(q)
    ensures BuildPeer(p) == BuildPeer(q) <==> KeyAgent(p) == KeyAgent(q) && RouteOf(p) == RouteOf(q)
  {
    RouteOfScope(p);
    RouteOfScope(q);
    KeysEqualIff(p, q);
  }

  lemma ColonRests(channel: string, kind: string, other: string, peer: string)
    ensures var r, s := Group(Colon(channel, kind), other, peer), Group(channel, kind, Colon(other, peer));
            r != s && RestOf(r) == RestOf(s)
  {
    assert |Colon(channel, kind)| > |channel|;
    var a, b := Colon(channel, kind), Colon(other, peer);
    assert Colon(a, b) == Colon(channel, Colon(kind, b));
  }

  /** With a colon in a channel, the keys of different groups can be equal. */
  lemma ColonsCollide(p: Params, q: Params, r: Route, s: Route)
    requires r == RouteOf(p) && s == RouteOf(q) && KeyAgent(p) == KeyAgent(q)
    requires r.Group? && s.Group? && r.channel == Colon(s.channel, s.kind) && s.peer == Colon(r.kind, r.peer)
    ensures r != s && BuildPeer(p) == BuildPeer(q)
  {
    ColonRests(s.channel, s.kind, r.kind, r.peer);
    BuildIsKey(p);
    BuildIsKey(q);
  }
}
