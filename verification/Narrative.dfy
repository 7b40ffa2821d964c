/**
  Narrative clustering (narrative/embed.py:24-51, narrative/cluster.py:14-83): mentions join
  the most similar cluster seed at or above a threshold, or become the seed of a new cluster.
*/
module Narrative {

  import opened Prelude

  // ------------------------------------------------------------------ signatures

  type Signature = seq<nat>

  /** Smallest mixed hash of a text's shingles under one seed. */
  function LeastMix(shingles: seq<nat>, seed: nat, mix: (nat, nat) -> nat): (m: nat)
    requires shingles != []
    ensures exists i :: 0 <= i < |shingles| && mix(shingles[i], seed) == m
    ensures forall i :: 0 <= i < |shingles| ==> m <= mix(shingles[i], seed)
  {
    var init := shingles[..|shingles| - 1];
    var last := shingles[|shingles| - 1];
    assert shingles == init + [last];
    if init == [] then mix(last, seed)
    else
      var m := LeastMix(init, seed, mix);
      if mix(last, seed) < m then mix(last, seed) else m
  }

  method LeastOf(hashes: seq<nat>, seed: nat, mix: (nat, nat) -> nat) returns (least: nat)
    requires hashes != []
    ensures least == LeastMix(hashes, seed, mix)
  {
    least := mix(hashes[0], seed);
    var k := 1;
    while k < |hashes|
      invariant 1 <= k <= |hashes|
      invariant least == LeastMix(hashes[..k], seed, mix)
    {
      assert hashes[..k + 1][..k] == hashes[..k];
      if mix(hashes[k], seed) < least {
        least := mix(hashes[k], seed);
      }
      k := k + 1;
    }
    assert hashes[..k] == hashes;
  }

  method Embed(shingles: seq<nat>, seeds: seq<nat>, mix: (nat, nat) -> nat) returns (signature: Signature)
    ensures |signature| == |seeds|
    ensures forall i :: 0 <= i < |seeds| ==>
              signature[i] == LeastMix(if shingles == [] then [0] else shingles, seeds[i], mix)
  {
    hide LeastMix;
    var hashes := if shingles == [] then [0] else shingles;
    signature := [];
    for i := 0 to |seeds|
      invariant |signature| == i
      invariant forall j :: 0 <= j < i ==> signature[j] == LeastMix(hashes, seeds[j], mix)
    {
      var least := LeastOf(hashes, seeds[i], mix);
      signature := signature + [least];
    }
  }

  /** A signature depends on which shingles a text has, not on their order or number. */
  lemma SignatureOfSet(s: seq<nat>, t: seq<nat>, seed: nat, mix: (nat, nat) -> nat)
    requires s != [] && t != [] && forall h :: h in s <==> h in t
    ensures LeastMix(s, seed, mix) == LeastMix(t, seed, mix)
  {
    var i :| 0 <= i < |s| && mix(s[i], seed) == LeastMix(s, seed, mix);
    var j :| 0 <= j < |t| && mix(t[j], seed) == LeastMix(t, seed, mix);
    assert s[i] in t && t[j] in s;
  }

  function Matches(l: Signature, r: Signature): nat
    requires |l| == |r|
  {
    if l == [] then 0 else Matches(l[1..], r[1..]) + if l[0] == r[0] then 1 else 0
  }

  function Similarity(l: Signature, r: Signature): real {
    if |l| != |r| || l == [] then 0.0 else Matches(l, r) as real / |l| as real
  }

  lemma {:induction false} MatchesBounds(l: Signature, r: Signature)
    requires |l| == |r|
    ensures Matches(l, r) <= |l| && Matches(l, r) == Matches(r, l) && (Matches(l, r) == |l| <==> l == r)
  {
    if l != [] {
      MatchesBounds(l[1..], r[1..]);
      assert l == [l[0]] + l[1..] && r == [r[0]] + r[1..];
    }
  }

  /** Similarity is the share of the positions at which two signatures agree. */
  lemma SimilarityCounts(l: Signature, r: Signature)
    requires |l| == |r| && l != []
    ensures Similarity(l, r) * |l| as real == |set i | 0 <= i < |l| && l[i] == r[i]| as real
  {
    AgreementsCount(l, r);
    QuotientTimes(Matches(l, r) as real, |l| as real);
  }

  lemma {:induction false} AgreementsCount(l: Signature, r: Signature)
    requires |l| == |r|
    ensures Matches(l, r) == |set i | 0 <= i < |l| && l[i] == r[i]|
  {
    if l != [] {
      var n := |l| - 1;
      AgreementsCount(l[..n], r[..n]);
      MatchesFromTheEnd(l, r);
      var before := set i | 0 <= i < |l[..n]| && l[..n][i] == r[..n][i];
      assert (set i | 0 <= i < |l| && l[i] == r[i]) == before + if l[n] == r[n] then {n} else {};
    }
  }

  lemma {:induction false} MatchesFromTheEnd(l: Signature, r: Signature)
    requires |l| == |r| && l != []
    ensures var n := |l| - 1; Matches(l, r) == Matches(l[..n], r[..n]) + if l[n] == r[n] then 1 else 0
  {
    var n := |l| - 1;
    if n > 0 {
      MatchesFromTheEnd(l[1..], r[1..]);
      assert l[1..][..n - 1] == l[..n][1..] && r[1..][..n - 1] == r[..n][1..];
    }
  }

  /** Similarity is a symmetric fraction that is one exactly for equal signatures. */
  lemma SimilarityIsAFraction(l: Signature, r: Signature)
    ensures 0.0 <= Similarity(l, r) <= 1.0 && Similarity(l, r) == Similarity(r, l)
    ensures Similarity(l, r) == 1.0 <==> l == r && l != []
  {
    if |l| == |r| && l != [] {
      MatchesBounds(l, r);
      PartOfWhole(Matches(l, r), |l|);
    }
  }

  // ------------------------------------------------------------------ clustering

  type Key = string

  const SEED_LIMIT := 256
  const UNTITLED := "untitled"

  datatype Mention = Mention(topic: string, observedAt: int, key: Option<Key>)

  datatype Cluster = Cluster(seedTopic: string, mentionCount: nat)

  type Clusters = map<Key, Cluster>

  /** Signatures of all texts, and the key a topic is stored under. */
  datatype Tools = Tools(embed: string -> Signature, keyOf: string -> Key)

  function Titled(topic: string): string {
    if topic == "" then UNTITLED else topic
  }

  /** What the seed column keeps of a text: its first 256 characters. */
  function Cut(topic: string): (kept: string)
    ensures kept <= topic && |kept| <= 256 && (|topic| > 256 ==> |kept| == 256) && (|topic| <= 256 ==> kept == topic)
  {
    if |topic| <= SEED_LIMIT then topic else topic[..SEED_LIMIT]
  }

  function Carrying(ms: seq<Mention>, k: Key): nat {
    if ms == [] then 0
    else Carrying(ms[..|ms| - 1], k) + if ms[|ms| - 1].key == Some(k) then 1 else 0
  }

  function Near(tools: Tools, a: string, b: string): real {
    Similarity(tools.embed(a), tools.embed(b))
  }

  /** The texts at hand: the topics of the mentions and the seeds stored so far. */
  ghost predicate AtHand(ms: seq<Mention>, cs: Clusters, t: string) {
    (exists m :: m in ms && m.topic == t) || (exists k :: k in cs && cs[k].seedTopic == t)
  }

  /** Texts the seed column can hold, with signatures of one positive length. */
  ghost predicate Faithful(tools: Tools, ms: seq<Mention>) {
    && (forall t, u :: |tools.embed(t)| == |tools.embed(u)| && tools.embed(t) != [])
    && forall m :: m in ms ==> 0 < |m.topic| <= SEED_LIMIT
  }

  /** Keys are truncated hashes, so some texts share one; no two of the texts at hand do. */
  ghost predicate KeysApart(tools: Tools, ms: seq<Mention>, cs: Clusters) {
    forall t, u :: AtHand(ms, cs, t) && AtHand(ms, cs, u) && tools.keyOf(t) == tools.keyOf(u) ==> t == u
  }

  /** A threshold net: seeds keep apart, members keep close, and each cluster counts its members. */
  ghost predicate Net(tools: Tools, threshold: real, ms: seq<Mention>, cs: Clusters) {
    && (forall k :: k in cs ==> k == tools.keyOf(cs[k].seedTopic))
    && (forall k, l :: k in cs && l in cs && k != l ==> Near(tools, cs[k].seedTopic, cs[l].seedTopic) < threshold)
    && (forall i :: 0 <= i < |ms| && ms[i].key.Some? ==>
          ms[i].key.value in cs && Near(tools, ms[i].topic, cs[ms[i].key.value].seedTopic) >= threshold)
    && forall k :: k in cs ==> cs[k].mentionCount == Carrying(ms, k)
  }

  predicate Open(m: Mention, decision: int) {
    m.observedAt <= decision && m.key.None?
  }

  /** The best seed above zero: the first of the most similar ones, if any is similar at all. */
  ghost predicate IsBest(signature: Signature, order: seq<Key>, seeds: map<Key, Signature>, best: Option<Key>,
                         similarity: real)
  {
    && (best.None? ==> similarity == 0.0)
    && (best.Some? ==> best.value in order && best.value in seeds && similarity > 0.0
                       && similarity == Similarity(signature, seeds[best.value]))
    && (forall k :: k in order && k in seeds ==> Similarity(signature, seeds[k]) <= similarity)
    && forall i, j :: 0 <= i < j < |order| && best == Some(order[j]) && order[i] in seeds && order[i] != order[j]
         ==> Similarity(signature, seeds[order[i]]) < similarity
  }

  lemma NoSeedYet(signature: Signature, seeds: map<Key, Signature>)
    ensures IsBest(signature, [], seeds, None, 0.0)
  {
  }

  /** One seed more: it takes over if it is more similar than all before it. */
  lemma NextSeed(signature: Signature, order: seq<Key>, seeds: map<Key, Signature>, best: Option<Key>,
                 similarity: real, k: Key)
    requires IsBest(signature, order, seeds, best, similarity) && similarity >= 0.0 && k in seeds && k !in order
    ensures var s := Similarity(signature, seeds[k]);
            if s > similarity then IsBest(signature, order + [k], seeds, Some(k), s)
            else IsBest(signature, order + [k], seeds, best, similarity)
  {
    hide Similarity;
  }

  method BestSeed(signature: Signature, seeds: Dict<Key, Signature>) returns (best: Option<Key>, similarity: real)
    requires seeds.Valid()
    ensures IsBest(signature, seeds.order, seeds.items, best, similarity)
  {
    NoSeedYet(signature, seeds.items);
    hide IsBest, Similarity;
    best, similarity := None, 0.0;
    var i := 0;
    while i < |seeds.order|
      invariant 0 <= i <= |seeds.order| && similarity >= 0.0
      invariant IsBest(signature, seeds.order[..i], seeds.items, best, similarity)
    {
      var k := seeds.order[i];
      assert seeds.order[..i + 1] == seeds.order[..i] + [k];
      assert k in seeds.order && k !in seeds.order[..i];
      NextSeed(signature, seeds.order[..i], seeds.items, best, similarity, k);
      var s := Similarity(signature, seeds.items[k]);
      if s > similarity {
        best, similarity := Some(k), s;
      }
      i := i + 1;
    }
    assert seeds.order[..i] == seeds.order;
  }

  // -------------------------------------------------------------- steps of the net

  lemma {:induction false} CarryingUpdate(ms: seq<Mention>, i: nat, k: Key, l: Key)
    requires i < |ms| && ms[i].key.None?
    ensures Carrying(ms[i := ms[i].(key := Some(k))], l) == Carrying(ms, l) + if k == l then 1 else 0
  {
    var next := ms[i := ms[i].(key := Some(k))];
    var n := |ms| - 1;
    if i < n {
      assert next[..n] == ms[..n][i := ms[i].(key := Some(k))];
      CarryingUpdate(ms[..n], i, k, l);
    } else {
      assert next[..n] == ms[..n];
    }
  }

  lemma {:induction false} NobodyCarries(ms: seq<Mention>, k: Key)
    requires forall i :: 0 <= i < |ms| ==> ms[i].key != Some(k)
    ensures Carrying(ms, k) == 0
  {
    if ms != [] {
      NobodyCarries(ms[..|ms| - 1], k);
    }
  }

  /** A mention joins a cluster near enough. */
  lemma JoinKeepsNet(tools: Tools, threshold: real, ms: seq<Mention>, cs: Clusters, i: nat, k: Key)
    requires Net(tools, threshold, ms, cs) && i < |ms| && ms[i].key.None? && k in cs
    requires Near(tools, ms[i].topic, cs[k].seedTopic) >= threshold
    ensures Net(tools, threshold, ms[i := ms[i].(key := Some(k))],
                cs[k := cs[k].(mentionCount := cs[k].mentionCount + 1)])
  {
    hide Near;
    forall l | l in cs
      ensures Carrying(ms[i := ms[i].(key := Some(k))], l) == Carrying(ms, l) + if k == l then 1 else 0
    {
      CarryingUpdate(ms, i, k, l);
    }
  }

  /** A topic far from every seed gets a key that is not taken. */
  lemma FarTopicHasNewKey(tools: Tools, threshold: real, ms: seq<Mention>, cs: Clusters, topic: string)
    requires Faithful(tools, ms) && Net(tools, threshold, ms, cs) && threshold <= 1.0
    requires KeysApart(tools, ms, cs) && AtHand(ms, cs, topic)
    requires forall k :: k in cs ==> Near(tools, topic, cs[k].seedTopic) < threshold
    ensures tools.keyOf(topic) !in cs
  {
    SimilarityIsAFraction(tools.embed(topic), tools.embed(topic));
    assert Near(tools, topic, topic) == 1.0;
    hide Near;
  }

  /** A new seed far from all others keeps the net. */
  lemma SeedKeepsNet(tools: Tools, threshold: real, ms: seq<Mention>, cs: Clusters, topic: string)
    requires Faithful(tools, ms) && Net(tools, threshold, ms, cs)
    requires forall k :: k in cs ==> Near(tools, topic, cs[k].seedTopic) < threshold
    requires tools.keyOf(topic) !in cs
    ensures Net(tools, threshold, ms, cs[tools.keyOf(topic) := Cluster(topic, 0)])
  {
    var k := tools.keyOf(topic);
    NobodyCarries(ms, k);
    forall l | l in cs ensures Near(tools, cs[l].seedTopic, topic) < threshold {
      SimilarityIsAFraction(tools.embed(topic), tools.embed(cs[l].seedTopic));
    }
    hide Near;
  }

  // ------------------------------------------------------------- which seeds a pass knows

  /** A seed: the text stored for it, and the signature the pass compares with. */
  datatype Seed = Seed(text: string, signature: Signature)

  type Seeds = map<Key, Seed>

  /** A pass starts from the stored texts, and embeds them anew. */
  function StartSeeds(tools: Tools, cs: Clusters): Seeds {
    map k | k in cs :: Seed(cs[k].seedTopic, tools.embed(cs[k].seedTopic))
  }

  /** No seed is similar at all and at or above the threshold. */
  predicate Far(signature: Signature, seeds: Seeds, threshold: real) {
    forall k :: k in seeds ==>
      !(Similarity(signature, seeds[k].signature) > 0.0 && Similarity(signature, seeds[k].signature) >= threshold)
  }

  /** An open mention far from all seeds becomes one, with the signature of its own topic. */
  function NextSeeds(tools: Tools, threshold: real, decision: int, seeds: Seeds, m: Mention): Seeds {
    var signature := tools.embed(m.topic);
    if Open(m, decision) && Far(signature, seeds, threshold)
    then seeds[tools.keyOf(Titled(m.topic)) := Seed(Cut(Titled(m.topic)), signature)]
    else seeds
  }

  function SeedsAfter(tools: Tools, threshold: real, decision: int, start: Seeds, ms: seq<Mention>): Seeds {
    if ms == [] then start
    else
      var before := SeedsAfter(tools, threshold, decision, start, ms[..|ms| - 1]);
      NextSeeds(tools, threshold, decision, before, ms[|ms| - 1])
  }

  /** Mention `i` is to become a seed, and its key is taken by the seeds the pass knows by then. */
  predicate CollidesAt(tools: Tools, threshold: real, decision: int, start: Seeds, ms: seq<Mention>, i: int) {
    && 0 <= i < |ms| && Open(ms[i], decision)
    && var seeds := SeedsAfter(tools, threshold, decision, start, ms[..i]);
       Far(tools.embed(ms[i].topic), seeds, threshold) && tools.keyOf(Titled(ms[i].topic)) in seeds
  }

  function TextsOf(cs: Clusters): map<Key, string> {
    map k | k in cs :: cs[k].seedTopic
  }

  function SeedTexts(seeds: Seeds): map<Key, string> {
    map k | k in seeds :: seeds[k].text
  }

  ghost predicate Tracks(cs: Clusters, signatures: map<Key, Signature>, seeds: Seeds) {
    && cs.Keys == seeds.Keys && signatures.Keys == seeds.Keys
    && forall k :: k in seeds ==> seeds[k] == Seed(cs[k].seedTopic, signatures[k])
  }

  lemma BestJudgesFar(signature: Signature, order: seq<Key>, signatures: map<Key, Signature>, cs: Clusters,
                      seeds: Seeds, best: Option<Key>, similarity: real, threshold: real)
    requires IsBest(signature, order, signatures, best, similarity) && Tracks(cs, signatures, seeds)
    requires forall k :: k in order <==> k in signatures
    ensures best.Some? && similarity >= threshold <==> !Far(signature, seeds, threshold)
  {
    hide Similarity;
  }

  lemma OneMoreMention(tools: Tools, threshold: real, decision: int, start: Seeds, ms: seq<Mention>, i: nat)
    requires i < |ms|
    ensures SeedsAfter(tools, threshold, decision, start, ms[..i + 1])
         == NextSeeds(tools, threshold, decision, SeedsAfter(tools, threshold, decision, start, ms[..i]), ms[i])
  {
    assert ms[..i + 1][..i] == ms[..i];
  }

  lemma NoMentionYet(tools: Tools, threshold: real, decision: int, start: Seeds, ms: seq<Mention>)
    ensures SeedsAfter(tools, threshold, decision, start, ms[..0]) == start
  {
  }

  lemma SkippedMention(tools: Tools, threshold: real, decision: int, start: Seeds, ms: seq<Mention>, i: nat)
    requires i < |ms| && !(ms[i].observedAt <= decision && ms[i].key.None?)
    ensures SeedsAfter(tools, threshold, decision, start, ms[..i + 1])
         == SeedsAfter(tools, threshold, decision, start, ms[..i])
    ensures !CollidesAt(tools, threshold, decision, start, ms, i)
  {
    OneMoreMention(tools, threshold, decision, start, ms, i);
  }

  lemma JoinedMention(tools: Tools, threshold: real, decision: int, start: Seeds, ms: seq<Mention>, i: nat)
    requires i < |ms|
    requires !Far(tools.embed(ms[i].topic), SeedsAfter(tools, threshold, decision, start, ms[..i]), threshold)
    ensures SeedsAfter(tools, threshold, decision, start, ms[..i + 1])
         == SeedsAfter(tools, threshold, decision, start, ms[..i])
    ensures !CollidesAt(tools, threshold, decision, start, ms, i)
  {
    hide Far;
    OneMoreMention(tools, threshold, decision, start, ms, i);
  }

  lemma SeededMention(tools: Tools, threshold: real, decision: int, start: Seeds, ms: seq<Mention>, i: nat,
                      cs: Clusters, signatures: map<Key, Signature>)
    requires i < |ms| && ms[i].observedAt <= decision && ms[i].key.None?
    requires Far(tools.embed(ms[i].topic), SeedsAfter(tools, threshold, decision, start, ms[..i]), threshold)
    requires Tracks(cs, signatures, SeedsAfter(tools, threshold, decision, start, ms[..i]))
    ensures var key := tools.keyOf(Titled(ms[i].topic));
            && (CollidesAt(tools, threshold, decision, start, ms, i) <==> key in cs)
            && (key !in cs ==>
                  Tracks(cs[key := Cluster(Cut(Titled(ms[i].topic)), 0)],
                         signatures[key := tools.embed(ms[i].topic)],
                         SeedsAfter(tools, threshold, decision, start, ms[..i + 1])))
  {
    hide Far, SeedsAfter;
    OneMoreMention(tools, threshold, decision, start, ms, i);
  }

  lemma CollisionsAreInside(tools: Tools, threshold: real, decision: int, start: Seeds, ms: seq<Mention>)
    ensures forall i :: CollidesAt(tools, threshold, decision, start, ms, i) ==> 0 <= i < |ms|
  {
  }

  lemma CountKeepsTracks(cs: Clusters, signatures: map<Key, Signature>, seeds: Seeds, key: Key)
    requires Tracks(cs, signatures, seeds) && key in cs
    ensures Tracks(cs[key := cs[key].(mentionCount := cs[key].mentionCount + 1)], signatures, seeds)
  {
  }

  lemma TrackedTexts(cs: Clusters, signatures: map<Key, Signature>, seeds: Seeds)
    requires Tracks(cs, signatures, seeds)
    ensures TextsOf(cs) == SeedTexts(seeds)
  {
  }

  // -------------------------------------------------------------------- the pass

  function OpenCount(ms: seq<Mention>, decision: int): nat {
    if ms == [] then 0
    else OpenCount(ms[..|ms| - 1], decision) + if Open(ms[|ms| - 1], decision) then 1 else 0
  }

  ghost predicate SeedsMatch(tools: Tools, cs: Dict<Key, Cluster>, seeds: Dict<Key, Signature>) {
    forall k :: k in cs.items ==> k in seeds.items && seeds.items[k] == tools.embed(cs.items[k].seedTopic)
  }

  /** The first `i` mentions have been dealt with: open ones have a key now, all else is as it was. */
  ghost predicate PassedBy(before: seq<Mention>, ms: seq<Mention>, i: nat, decision: int) {
    && |ms| == |before| && i <= |ms|
    && (forall j :: 0 <= j < i ==> !Open(ms[j], decision))
    && (forall j :: 0 <= j < |ms| ==> ms[j].topic == before[j].topic && ms[j].observedAt == before[j].observedAt)
    && (forall j :: 0 <= j < |ms| && (j >= i || !Open(before[j], decision)) ==> ms[j] == before[j])
  }

  /** What the pass relies on to keep the net. */
  ghost predicate Sound(tools: Tools, threshold: real, ms: seq<Mention>, cs: Clusters) {
    0.0 < threshold <= 1.0 && Faithful(tools, ms) && Net(tools, threshold, ms, cs)
  }

  lemma BestJudgesAll(tools: Tools, cs: Dict<Key, Cluster>, seeds: Dict<Key, Signature>, topic: string,
                      best: Option<Key>, similarity: real, threshold: real)
    requires cs.Valid() && seeds.Valid() && seeds.order == cs.order && SeedsMatch(tools, cs, seeds) && threshold > 0.0
    requires IsBest(tools.embed(topic), seeds.order, seeds.items, best, similarity)
    ensures best.Some? && similarity >= threshold ==>
              best.value in cs.items && Near(tools, topic, cs.items[best.value].seedTopic) >= threshold
    ensures !(best.Some? && similarity >= threshold) ==>
              forall k :: k in cs.items ==> Near(tools, topic, cs.items[k].seedTopic) < threshold
  {
    hide Similarity, Distinct;
    forall k | k in cs.items ensures Near(tools, topic, cs.items[k].seedTopic) <= similarity {
      assert k in seeds.order;
    }
  }

  lemma AllPassed(before: seq<Mention>, ms: seq<Mention>, decision: int)
    requires PassedBy(before, ms, |ms|, decision)
    ensures OpenCount(ms, decision) == 0
    ensures OpenCount(before, decision) == 0 ==> ms == before
  {
    NoneOpen(ms, decision);
    if OpenCount(before, decision) == 0 {
      CountNone(before, decision);
    }
  }

  lemma {:induction false} NoneOpen(ms: seq<Mention>, decision: int)
    requires forall j :: 0 <= j < |ms| ==> !Open(ms[j], decision)
    ensures OpenCount(ms, decision) == 0
  {
    if ms != [] {
      NoneOpen(ms[..|ms| - 1], decision);
    }
  }

  lemma {:induction false} CountNone(ms: seq<Mention>, decision: int)
    requires OpenCount(ms, decision) == 0
    ensures forall j :: 0 <= j < |ms| ==> !Open(ms[j], decision)
  {
    if ms != [] {
      CountNone(ms[..|ms| - 1], decision);
    }
  }

  lemma StartOfPass(ms: seq<Mention>, decision: int)
    ensures PassedBy(ms, ms, 0, decision)
    ensures OpenCount(ms[..0], decision) == 0
  {
  }

  lemma NextMention(before: seq<Mention>, ms: seq<Mention>, i: nat, decision: int)
    requires PassedBy(before, ms, i, decision) && i < |ms|
    ensures ms[i] == before[i]
    ensures OpenCount(before[..i + 1], decision)
         == OpenCount(before[..i], decision) + if ms[i].observedAt <= decision && ms[i].key.None? then 1 else 0
    ensures !(ms[i].observedAt <= decision && ms[i].key.None?) ==> PassedBy(before, ms, i + 1, decision)
  {
    assert before[..i + 1][..i] == before[..i];
  }

  lemma AssignKey(before: seq<Mention>, ms: seq<Mention>, i: nat, decision: int, k: Key)
    requires PassedBy(before, ms, i, decision) && i < |ms| && ms[i].observedAt <= decision && ms[i].key.None?
    ensures PassedBy(before, ms[i := ms[i].(key := Some(k))], i + 1, decision)
  {
  }

  lemma BestIsKnown(signature: Signature, cs: Dict<Key, Cluster>, seeds: Dict<Key, Signature>, best: Option<Key>,
                    similarity: real)
    requires cs.Valid() && seeds.order == cs.order && best.Some?
    requires IsBest(signature, seeds.order, seeds.items, best, similarity)
    ensures best.value in cs.items
  {
  }

  lemma NewSeedIsSound(tools: Tools, threshold: real, ms: seq<Mention>, cs: Dict<Key, Cluster>,
                       seeds: Dict<Key, Signature>, i: nat)
    requires Sound(tools, threshold, ms, cs.items) && SeedsMatch(tools, cs, seeds) && i < |ms|
    requires forall k :: k in cs.items ==> Near(tools, ms[i].topic, cs.items[k].seedTopic) < threshold
    requires tools.keyOf(Titled(ms[i].topic)) !in cs.items
    ensures var topic := ms[i].topic;
            var k := tools.keyOf(Titled(topic));
            var more := cs.Put(k, Cluster(Cut(Titled(topic)), 0));
            && Sound(tools, threshold, ms, more.items)
            && SeedsMatch(tools, more, seeds.Put(k, tools.embed(topic)))
            && Near(tools, topic, more.items[k].seedTopic) >= threshold
  {
    var topic := ms[i].topic;
    assert ms[i] in ms;
    assert Cut(Titled(topic)) == topic;
    SeedKeepsNet(tools, threshold, ms, cs.items, topic);
    SimilarityIsAFraction(tools.embed(topic), tools.embed(topic));
    hide Net, Similarity;
  }

  lemma JoinIsSound(tools: Tools, threshold: real, ms: seq<Mention>, cs: Dict<Key, Cluster>,
                    seeds: Dict<Key, Signature>,
                    i: nat, k: Key)
    requires Sound(tools, threshold, ms, cs.items) && SeedsMatch(tools, cs, seeds)
    requires i < |ms| && ms[i].key.None? && k in cs.items &&
             Near(tools, ms[i].topic, cs.items[k].seedTopic) >= threshold
    ensures var next := cs.Put(k, cs.items[k].(mentionCount := cs.items[k].mentionCount + 1));
            && Sound(tools, threshold, ms[i := ms[i].(key := Some(k))], next.items)
            && SeedsMatch(tools, next, seeds)
  {
    hide Net, Near, Faithful, Distinct;
    JoinKeepsNet(tools, threshold, ms, cs.items, i, k);
    KeyedIsFaithful(tools, ms, i, k);
  }

  lemma KeyedIsFaithful(tools: Tools, ms: seq<Mention>, i: nat, k: Key)
    requires Faithful(tools, ms) && i < |ms|
    ensures Faithful(tools, ms[i := ms[i].(key := Some(k))])
  {
    var next := ms[i := ms[i].(key := Some(k))];
    forall m | m in next ensures 0 < |m.topic| <= SEED_LIMIT {
      var j :| 0 <= j < |next| && next[j] == m;
      assert ms[j] in ms;
    }
  }

  /** With keys apart, an open mention that fits no seed finds its key free. */
  lemma NoCollision(tools: Tools, threshold: real, ms: seq<Mention>, cs: Clusters, i: nat)
    requires Sound(tools, threshold, ms, cs) && KeysApart(tools, ms, cs) && i < |ms|
    requires forall k :: k in cs ==> Near(tools, ms[i].topic, cs[k].seedTopic) < threshold
    ensures tools.keyOf(Titled(ms[i].topic)) !in cs
  {
    assert ms[i] in ms;
    assert AtHand(ms, cs, ms[i].topic);
    FarTopicHasNewKey(tools, threshold, ms, cs, ms[i].topic);
  }

  /** Giving a mention a key, and counting it, brings in no new text. */
  lemma KeyedStaysApart(tools: Tools, ms: seq<Mention>, cs: Clusters, i: nat, k: Key)
    requires KeysApart(tools, ms, cs) && i < |ms| && k in cs
    ensures KeysApart(tools, ms[i := ms[i].(key := Some(k))], cs[k := cs[k].(mentionCount := cs[k].mentionCount + 1)])
  {
    var next := ms[i := ms[i].(key := Some(k))];
    var more := cs[k := cs[k].(mentionCount := cs[k].mentionCount + 1)];
    forall m | m in next ensures exists n :: n in ms && n.topic == m.topic {
      var j :| 0 <= j < |next| && next[j] == m;
      assert ms[j] in ms;
    }
    NoNewTexts(tools, ms, cs, next, more);
  }

  /** A seed taken from a mention is a text that was at hand before. */
  lemma SeedStaysApart(tools: Tools, ms: seq<Mention>, cs: Clusters, i: nat, k: Key)
    requires Faithful(tools, ms) && KeysApart(tools, ms, cs) && i < |ms|
    ensures KeysApart(tools, ms, cs[k := Cluster(Cut(Titled(ms[i].topic)), 0)])
  {
    assert ms[i] in ms;
    NoNewTexts(tools, ms, cs, ms, cs[k := Cluster(ms[i].topic, 0)]);
  }

  lemma NoNewTexts(tools: Tools, ms: seq<Mention>, cs: Clusters, next: seq<Mention>, more: Clusters)
    requires KeysApart(tools, ms, cs)
    requires forall m :: m in next ==> exists n :: n in ms && n.topic == m.topic
    requires forall k :: k in more ==> AtHand(ms, cs, more[k].seedTopic)
    ensures KeysApart(tools, next, more)
  {
    forall t | AtHand(next, more, t) ensures AtHand(ms, cs, t) {
    }
    hide AtHand;
  }

  lemma {:induction false} OpenIsCounted(ms: seq<Mention>, i: nat, decision: int)
    requires i < |ms| && ms[i].observedAt <= decision && ms[i].key.None?
    ensures OpenCount(ms, decision) > 0
  {
    if i < |ms| - 1 {
      OpenIsCounted(ms[..|ms| - 1], i, decision);
    }
  }

  method SeedSignatures(tools: Tools, cs: Dict<Key, Cluster>) returns (seeds: Dict<Key, Signature>)
    requires cs.Valid()
    ensures seeds.Valid() && seeds.order == cs.order && SeedsMatch(tools, cs, seeds)
    ensures Tracks(cs.items, seeds.items, StartSeeds(tools, cs.items))
  {
    seeds := Dict(cs.order, map k | k in cs.items :: tools.embed(cs.items[k].seedTopic));
  }

  /** A store without clusters is a net, whatever the mentions say. */
  lemma FirstPassIsSound(tools: Tools, threshold: real, ms: seq<Mention>)
    requires 0.0 < threshold <= 1.0 && Faithful(tools, ms) && forall m :: m in ms ==> m.key.None?
    ensures Sound(tools, threshold, ms, map[])
  {
    assert forall i :: 0 <= i < |ms| ==> ms[i] in ms;
  }

  /** Where an open mention goes: to a most similar seed, or to a new one under its own key. */
  ghost predicate GoesTo(tools: Tools, threshold: real, seeds: Seeds, m: Mention, k: Key) {
    var signature := tools.embed(m.topic);
    if forall l :: l in seeds ==>
         !(Similarity(signature, seeds[l].signature) > 0.0 && Similarity(signature, seeds[l].signature) >= threshold)
    then k == tools.keyOf(if m.topic == "" then "untitled" else m.topic)
    else
      && k in seeds && Similarity(signature, seeds[k].signature) >= threshold
      && forall l :: l in seeds ==>
           Similarity(signature, seeds[l].signature) <= Similarity(signature, seeds[k].signature)
  }

  /** The first `i` open mentions have gone where they belong, each by the seeds known when it was dealt with. */
  ghost predicate AllPlaced(tools: Tools, threshold: real, decision: int, start: Seeds, before: seq<Mention>,
                            ms: seq<Mention>, i: nat)
  {
    forall j :: 0 <= j < i && j < |before| && before[j].observedAt <= decision && before[j].key.None? ==>
      && j < |ms| && ms[j].key.Some?
      && GoesTo(tools, threshold, SeedsAfter(tools, threshold, decision, start, before[..j]), before[j],
                ms[j].key.value)
  }

  lemma NothingToPlace(tools: Tools, threshold: real, decision: int, start: Seeds, before: seq<Mention>,
                       ms: seq<Mention>)
    ensures AllPlaced(tools, threshold, decision, start, before, ms, 0)
  {
  }

  lemma SkippedIsPlaced(tools: Tools, threshold: real, decision: int, start: Seeds, before: seq<Mention>,
                        ms: seq<Mention>, i: nat)
    requires AllPlaced(tools, threshold, decision, start, before, ms, i) && i < |before|
    requires !(before[i].observedAt <= decision && before[i].key.None?)
    ensures AllPlaced(tools, threshold, decision, start, before, ms, i + 1)
  {
    hide GoesTo, SeedsAfter;
  }

  lemma OneIsPlaced(tools: Tools, threshold: real, decision: int, start: Seeds, before: seq<Mention>,
                    ms: seq<Mention>, i: nat, k: Key)
    requires AllPlaced(tools, threshold, decision, start, before, ms, i) && i < |before| && i < |ms|
    requires GoesTo(tools, threshold, SeedsAfter(tools, threshold, decision, start, before[..i]), before[i], k)
    ensures AllPlaced(tools, threshold, decision, start, before, ms[i := ms[i].(key := Some(k))], i + 1)
  {
    hide GoesTo, SeedsAfter;
  }

  lemma BestIsWhereItGoes(tools: Tools, threshold: real, order: seq<Key>, signatures: map<Key, Signature>,
                          cs: Clusters, seeds: Seeds, m: Mention, best: Option<Key>, similarity: real)
    requires IsBest(tools.embed(m.topic), order, signatures, best, similarity) && Tracks(cs, signatures, seeds)
    requires forall k :: k in order <==> k in signatures
    requires best.Some? && similarity >= threshold
    ensures GoesTo(tools, threshold, seeds, m, best.value)
  {
    hide Similarity;
  }

  lemma FarGoesToItsOwn(tools: Tools, threshold: real, seeds: Seeds, m: Mention)
    requires Far(tools.embed(m.topic), seeds, threshold)
    ensures GoesTo(tools, threshold, seeds, m, tools.keyOf(Titled(m.topic)))
  {
    hide Similarity;
  }

  // --------------------------------------------------------- the pass, mention by mention

  /** The state of a pass over `before` and the clusters `first`, when `i` mentions have been dealt with. */
  ghost predicate Running(tools: Tools, threshold: real, decision: int, before: seq<Mention>, first: Dict<Key, Cluster>,
                          ms: seq<Mention>, cs: Dict<Key, Cluster>, seeds: Dict<Key, Signature>, i: nat, n: nat)
  {
    && i <= |ms| == |before| && cs.Valid() && seeds.Valid() && seeds.order == cs.order
    && PassedBy(before, ms, i, decision)
    && n == OpenCount(before[..i], decision) && (n == 0 ==> cs == first)
    && (Sound(tools, threshold, before, first.items) ==>
          Sound(tools, threshold, ms, cs.items) && SeedsMatch(tools, cs, seeds))
    && (Sound(tools, threshold, before, first.items) && KeysApart(tools, before, first.items) ==>
          KeysApart(tools, ms, cs.items))
    && Tracks(cs.items, seeds.items,
              SeedsAfter(tools, threshold, decision, StartSeeds(tools, first.items), before[..i]))
    && AllPlaced(tools, threshold, decision, StartSeeds(tools, first.items), before, ms, i)
    && forall j :: 0 <= j < i ==>
         !CollidesAt(tools, threshold, decision, StartSeeds(tools, first.items), before, j)
  }

  lemma Begins(tools: Tools, threshold: real, decision: int, ms: seq<Mention>, cs: Dict<Key, Cluster>,
               seeds: Dict<Key, Signature>)
    requires cs.Valid() && seeds.Valid() && seeds.order == cs.order && SeedsMatch(tools, cs, seeds)
    requires Tracks(cs.items, seeds.items, StartSeeds(tools, cs.items))
    ensures Running(tools, threshold, decision, ms, cs, ms, cs, seeds, 0, 0)
  {
    hide Distinct, SeedsMatch, Tracks, StartSeeds, CollidesAt, Faithful, Net, KeysApart, OpenCount, PassedBy;
    StartOfPass(ms, decision);
    NoMentionYet(tools, threshold, decision, StartSeeds(tools, cs.items), ms);
    NothingToPlace(tools, threshold, decision, StartSeeds(tools, cs.items), ms, ms);
  }

  lemma InOrder(tools: Tools, threshold: real, decision: int, before: seq<Mention>, first: Dict<Key, Cluster>,
                ms: seq<Mention>, cs: Dict<Key, Cluster>, seeds: Dict<Key, Signature>, i: nat, n: nat)
    requires Running(tools, threshold, decision, before, first, ms, cs, seeds, i, n)
    ensures cs.Valid() && seeds.Valid()
  {
  }

  lemma Skips(tools: Tools, threshold: real, decision: int, before: seq<Mention>, first: Dict<Key, Cluster>,
              ms: seq<Mention>, cs: Dict<Key, Cluster>, seeds: Dict<Key, Signature>, i: nat, n: nat)
    requires Running(tools, threshold, decision, before, first, ms, cs, seeds, i, n) && i < |ms|
    requires !(ms[i].observedAt <= decision && ms[i].key.None?)
    ensures Running(tools, threshold, decision, before, first, ms, cs, seeds, i + 1, n)
  {
    hide Distinct, SeedsMatch, Tracks, StartSeeds, CollidesAt, Sound, KeysApart, OpenCount, PassedBy, SeedsAfter,
         AllPlaced;
    NextMention(before, ms, i, decision);
    SkippedIsPlaced(tools, threshold, decision, StartSeeds(tools, first.items), before, ms, i);
    SkippedMention(tools, threshold, decision, StartSeeds(tools, first.items), before, i);
  }

  /** The mention joins the best seed, which is near enough. */
  lemma Joins(tools: Tools, threshold: real, decision: int, before: seq<Mention>, first: Dict<Key, Cluster>,
              ms: seq<Mention>, cs: Dict<Key, Cluster>, seeds: Dict<Key, Signature>, i: nat, n: nat,
              best: Option<Key>, similarity: real)
    requires Running(tools, threshold, decision, before, first, ms, cs, seeds, i, n) && i < |ms|
    requires ms[i].observedAt <= decision && ms[i].key.None?
    requires IsBest(tools.embed(ms[i].topic), seeds.order, seeds.items, best, similarity)
    requires best.Some? && similarity >= threshold
    ensures best.value in cs.items
    ensures var count := cs.items[best.value].mentionCount;
            Running(tools, threshold, decision, before, first, ms[i := ms[i].(key := best)],
                    cs.Put(best.value, cs.items[best.value].(mentionCount := count + 1)), seeds, i + 1, n + 1)
  {
    hide Distinct, SeedsMatch, Tracks, StartSeeds, CollidesAt, Faithful, Net, KeysApart, OpenCount, PassedBy,
         SeedsAfter, AllPlaced, GoesTo, IsBest, Far, Near;
    var signature, start := tools.embed(ms[i].topic), StartSeeds(tools, first.items);
    var known := SeedsAfter(tools, threshold, decision, start, before[..i]);
    NextMention(before, ms, i, decision);
    BestIsKnown(signature, cs, seeds, best, similarity);
    OrderIsItems(seeds);
    BestJudgesFar(signature, seeds.order, seeds.items, cs.items, known, best, similarity, threshold);
    JoinedMention(tools, threshold, decision, start, before, i);
    CountKeepsTracks(cs.items, seeds.items, known, best.value);
    AssignKey(before, ms, i, decision, best.value);
    BestIsWhereItGoes(tools, threshold, seeds.order, seeds.items, cs.items, known, ms[i], best, similarity);
    OneIsPlaced(tools, threshold, decision, start, before, ms, i, best.value);
    PutKeepsOrder(cs, best.value, cs.items[best.value].(mentionCount := cs.items[best.value].mentionCount + 1));
    if Sound(tools, threshold, before, first.items) {
      BestJudgesAll(tools, cs, seeds, ms[i].topic, best, similarity, threshold);
      JoinIsSound(tools, threshold, ms, cs, seeds, i, best.value);
      if KeysApart(tools, before, first.items) {
        KeyedStaysApart(tools, ms, cs.items, i, best.value);
      }
    }
  }

  lemma OrderIsItems<K(!new), V>(d: Dict<K, V>)
    requires d.Valid()
    ensures forall k :: k in d.order <==> k in d.items
  {
  }

  lemma PutKeepsOrder<K(!new), V>(d: Dict<K, V>, k: K, v: V)
    requires k in d.items
    ensures d.Put(k, v).order == d.order && d.Put(k, v).items == d.items[k := v]
  {
  }

  /** The mention is to become a seed: the pass fails exactly if its key is taken, and never if keys are apart. */
  lemma Collides(tools: Tools, threshold: real, decision: int, before: seq<Mention>, first: Dict<Key, Cluster>,
                 ms: seq<Mention>, cs: Dict<Key, Cluster>, seeds: Dict<Key, Signature>, i: nat, n: nat,
                 best: Option<Key>, similarity: real)
    requires Running(tools, threshold, decision, before, first, ms, cs, seeds, i, n) && i < |ms|
    requires ms[i].observedAt <= decision && ms[i].key.None?
    requires IsBest(tools.embed(ms[i].topic), seeds.order, seeds.items, best, similarity)
    requires !(best.Some? && similarity >= threshold)
    ensures var key := tools.keyOf(Titled(ms[i].topic));
            && (key in cs.items <==>
                  CollidesAt(tools, threshold, decision, StartSeeds(tools, first.items), before, i))
            && (Sound(tools, threshold, before, first.items) && KeysApart(tools, before, first.items) ==>
                  key !in cs.items)
            && (key in cs.items ==> OpenCount(before, decision) > 0)
    ensures Far(tools.embed(ms[i].topic),
                SeedsAfter(tools, threshold, decision, StartSeeds(tools, first.items), before[..i]), threshold)
    ensures ms[i] == before[i]
  {
    hide Distinct, SeedsMatch, Tracks, StartSeeds, CollidesAt, Faithful, Net, KeysApart, OpenCount, PassedBy,
         SeedsAfter, AllPlaced, GoesTo, IsBest, Far, Near;
    var signature, start := tools.embed(ms[i].topic), StartSeeds(tools, first.items);
    var known := SeedsAfter(tools, threshold, decision, start, before[..i]);
    NextMention(before, ms, i, decision);
    OrderIsItems(seeds);
    BestJudgesFar(signature, seeds.order, seeds.items, cs.items, known, best, similarity, threshold);
    SeededMention(tools, threshold, decision, start, before, i, cs.items, seeds.items);
    OpenIsCounted(before, i, decision);
    if Sound(tools, threshold, before, first.items) && KeysApart(tools, before, first.items) {
      BestJudgesAll(tools, cs, seeds, ms[i].topic, best, similarity, threshold);
      NoCollision(tools, threshold, ms, cs.items, i);
    }
  }

  /** The mention becomes a seed under a free key, and its first member. */
  lemma Founds(tools: Tools, threshold: real, decision: int, before: seq<Mention>, first: Dict<Key, Cluster>,
               ms: seq<Mention>, cs: Dict<Key, Cluster>, seeds: Dict<Key, Signature>, i: nat, n: nat,
               best: Option<Key>, similarity: real)
    requires Running(tools, threshold, decision, before, first, ms, cs, seeds, i, n) && i < |ms|
    requires ms[i].observedAt <= decision && ms[i].key.None?
    requires IsBest(tools.embed(ms[i].topic), seeds.order, seeds.items, best, similarity)
    requires !(best.Some? && similarity >= threshold)
    requires tools.keyOf(Titled(ms[i].topic)) !in cs.items
    ensures var key := tools.keyOf(Titled(ms[i].topic));
            var more := cs.Put(key, Cluster(Cut(Titled(ms[i].topic)), 0));
            && key in more.items
            && Running(tools, threshold, decision, before, first, ms[i := ms[i].(key := Some(key))],
                       more.Put(key, more.items[key].(mentionCount := more.items[key].mentionCount + 1)),
                       seeds.Put(key, tools.embed(ms[i].topic)), i + 1, n + 1)
  {
    hide Distinct, SeedsMatch, Tracks, StartSeeds, CollidesAt, Faithful, Net, KeysApart, OpenCount, PassedBy,
         SeedsAfter, AllPlaced, GoesTo, IsBest, Far, Near, Titled, Cut;
    var start := StartSeeds(tools, first.items);
    var key := tools.keyOf(Titled(ms[i].topic));
    var more, others := cs.Put(key, Cluster(Cut(Titled(ms[i].topic)), 0)), seeds.Put(key, tools.embed(ms[i].topic));
    Collides(tools, threshold, decision, before, first, ms, cs, seeds, i, n, best, similarity);
    NextMention(before, ms, i, decision);
    SeededMention(tools, threshold, decision, start, before, i, cs.items, seeds.items);
    CountKeepsTracks(more.items, others.items, SeedsAfter(tools, threshold, decision, start, before[..i + 1]), key);
    AssignKey(before, ms, i, decision, key);
    FarGoesToItsOwn(tools, threshold, SeedsAfter(tools, threshold, decision, start, before[..i]), ms[i]);
    OneIsPlaced(tools, threshold, decision, start, before, ms, i, key);
    OrderIsItems(cs);
    OrderIsItems(seeds);
    if Sound(tools, threshold, before, first.items) {
      BestJudgesAll(tools, cs, seeds, ms[i].topic, best, similarity, threshold);
      NewSeedIsSound(tools, threshold, ms, cs, seeds, i);
      JoinIsSound(tools, threshold, ms, more, others, i, key);
      if KeysApart(tools, before, first.items) {
        SeedStaysApart(tools, ms, cs.items, i, key);
        KeyedStaysApart(tools, ms, more.items, i, key);
      }
    }
  }

  /** A pass gives keys to the mentions observed by then that had none, and changes nothing else. */
  predicate OnlyKeysGiven(before: seq<Mention>, after: seq<Mention>, decision: int) {
    && |after| == |before|
    && forall j :: 0 <= j < |before| ==>
         if before[j].observedAt <= decision && before[j].key.None?
         then after[j].key.Some? && after[j] == before[j].(key := after[j].key)
         else after[j] == before[j]
  }

  lemma PassGivesKeys(before: seq<Mention>, ms: seq<Mention>, decision: int)
    requires |ms| == |before| && PassedBy(before, ms, |ms|, decision)
    ensures OnlyKeysGiven(before, ms, decision)
    ensures OpenCount(before, decision)
         == |set j | 0 <= j < |before| && before[j].observedAt <= decision && before[j].key.None?|
  {
    OpenCounts(before, decision);
    hide OpenCount;
    forall j | 0 <= j < |before|
      ensures if before[j].observedAt <= decision && before[j].key.None?
              then ms[j].key.Some? && ms[j] == before[j].(key := ms[j].key) else ms[j] == before[j]
    {
    }
  }

  lemma {:induction false} OpenCounts(ms: seq<Mention>, decision: int)
    ensures OpenCount(ms, decision) == |set j | 0 <= j < |ms| && ms[j].observedAt <= decision && ms[j].key.None?|
  {
    if ms != [] {
      var n := |ms| - 1;
      var init := ms[..n];
      OpenCounts(init, decision);
      var before := set j | 0 <= j < |init| && init[j].observedAt <= decision && init[j].key.None?;
      assert (set j | 0 <= j < |ms| && ms[j].observedAt <= decision && ms[j].key.None?)
          == before + if ms[n].observedAt <= decision && ms[n].key.None? then {n} else {};
    }
  }

  lemma {:induction false} CarryingCounts(ms: seq<Mention>, k: Key)
    ensures Carrying(ms, k) == |set j | 0 <= j < |ms| && ms[j].key == Some(k)|
  {
    if ms != [] {
      var n := |ms| - 1;
      var init := ms[..n];
      CarryingCounts(init, k);
      var before := set j | 0 <= j < |init| && init[j].key == Some(k);
      assert (set j | 0 <= j < |ms| && ms[j].key == Some(k)) == before + if ms[n].key == Some(k) then {n} else {};
    }
  }

  lemma Ends(tools: Tools, threshold: real, decision: int, before: seq<Mention>, first: Dict<Key, Cluster>,
             ms: seq<Mention>, cs: Dict<Key, Cluster>, seeds: Dict<Key, Signature>, n: nat)
    requires Running(tools, threshold, decision, before, first, ms, cs, seeds, |ms|, n)
    ensures cs.Valid() && PassedBy(before, ms, |ms|, decision)
    ensures |ms| == |before| && AllPlaced(tools, threshold, decision, StartSeeds(tools, first.items), before, ms, |ms|)
    ensures n == OpenCount(before, decision) && OpenCount(ms, decision) == 0
    ensures n == 0 ==> ms == before && cs == first
    ensures forall i :: !CollidesAt(tools, threshold, decision, StartSeeds(tools, first.items), before, i)
    ensures TextsOf(cs.items)
         == SeedTexts(SeedsAfter(tools, threshold, decision, StartSeeds(tools, first.items), before))
    ensures Sound(tools, threshold, before, first.items) ==> Sound(tools, threshold, ms, cs.items)
    ensures Sound(tools, threshold, before, first.items) && KeysApart(tools, before, first.items) ==>
              KeysApart(tools, ms, cs.items)
  {
    hide Distinct, SeedsMatch, Tracks, StartSeeds, CollidesAt, Sound, KeysApart, OpenCount, SeedsAfter, AllPlaced;
    assert before[..|ms|] == before;
    AllPassed(before, ms, decision);
    var start := StartSeeds(tools, first.items);
    TrackedTexts(cs.items, seeds.items, SeedsAfter(tools, threshold, decision, start, before));
    CollisionsAreInside(tools, threshold, decision, start, before);
  }

  class NarrativeStore {
    var mentions: seq<Mention>
    var clusters: Dict<Key, Cluster>

    constructor (mentions: seq<Mention>)
      ensures this.mentions == mentions && clusters == Dict([], map[]) && clusters.Valid()
    {
      this.mentions := mentions;
      clusters := Dict([], map[]);
    }

    /**
      One pass. A key that is already taken violates the table's uniqueness, and the pass ends
      in an error with nothing kept; this happens exactly when some open mention that is to
      become a seed finds its key taken. Otherwise the seeds are those of `SeedsAfter`. With
      faithful texts every pass without error keeps the net, and no pass fails whose texts have
      different keys. After a pass, a second one finds nothing to do.
    */
    method ClusterMentions(tools: Tools, decision: int, threshold: real) returns (clustered: Option<nat>)
      requires clusters.Valid()
      modifies this
      ensures clusters.Valid()
      ensures clustered.None? ==> mentions == old(mentions) && clusters == old(clusters)
      ensures var start := StartSeeds(tools, old(clusters.items));
              && (clustered.None? <==> exists i :: CollidesAt(tools, threshold, decision, start, old(mentions), i))
              && (clustered.Some? ==>
                    TextsOf(clusters.items) == SeedTexts(SeedsAfter(tools, threshold, decision, start, old(mentions))))
      ensures clustered.Some? ==>
                && clustered.value == OpenCount(old(mentions), decision) && OpenCount(mentions, decision) == 0
                && PassedBy(old(mentions), mentions, |mentions|, decision)
      ensures clustered.Some? ==>
                && |mentions| == |old(mentions)|
                && AllPlaced(tools, threshold, decision, StartSeeds(tools, old(clusters.items)), old(mentions),
                             mentions, |mentions|)
                && OnlyKeysGiven(old(mentions), mentions, decision)
                && clustered.value == |set j | 0 <= j < |old(mentions)| && old(mentions)[j].observedAt <= decision
                                               && old(mentions)[j].key.None?|
      ensures OpenCount(old(mentions), decision) == 0 ==>
                clustered == Some(0) && mentions == old(mentions) && clusters == old(clusters)
      ensures old(Sound(tools, threshold, mentions, clusters.items)) && clustered.Some? ==>
                Sound(tools, threshold, mentions, clusters.items)
      ensures old(Sound(tools, threshold, mentions, clusters.items) && KeysApart(tools, mentions, clusters.items)) ==>
                clustered.Some? && KeysApart(tools, mentions, clusters.items)
    {
      hide *;
      var ms, cs := mentions, clusters;
      var seeds := SeedSignatures(tools, clusters);
      var n := 0;
      var i := 0;
      Begins(tools, threshold, decision, ms, cs, seeds);
      while i < |ms|
        invariant 0 <= i <= |ms| == |mentions|
        invariant mentions == old(mentions) && clusters == old(clusters)
        invariant Running(tools, threshold, decision, mentions, clusters, ms, cs, seeds, i, n)
      {
        InOrder(tools, threshold, decision, mentions, clusters, ms, cs, seeds, i, n);
        if ms[i].observedAt <= decision && ms[i].key.None? {
          var signature := tools.embed(ms[i].topic);
          var best, similarity := BestSeed(signature, seeds);
          var key;
          if best.Some? && similarity >= threshold {
            key := best.value;
            Joins(tools, threshold, decision, mentions, clusters, ms, cs, seeds, i, n, best, similarity);
          } else {
            key := tools.keyOf(Titled(ms[i].topic));
            Collides(tools, threshold, decision, mentions, clusters, ms, cs, seeds, i, n, best, similarity);
            if key in cs.items {
              return None;
            }
            Founds(tools, threshold, decision, mentions, clusters, ms, cs, seeds, i, n, best, similarity);
            cs := cs.Put(key, Cluster(Cut(Titled(ms[i].topic)), 0));
            seeds := seeds.Put(key, signature);
          }
          ms := ms[i := ms[i].(key := Some(key))];
          cs := cs.Put(key, cs.items[key].(mentionCount := cs.items[key].mentionCount + 1));
          n := n + 1;
        } else {
          Skips(tools, threshold, decision, mentions, clusters, ms, cs, seeds, i, n);
        }
        i := i + 1;
      }
      Ends(tools, threshold, decision, mentions, clusters, ms, cs, seeds, n);
      PassGivesKeys(mentions, ms, decision);
      mentions, clusters := ms, cs;
      clustered := Some(n);
    }
  }

  /** What a second pass meets: a keyed mention, an open one without topic, and the text "untitled". */
  lemma SecondEmptyTopic(tools: Tools, threshold: real, first: Mention, cs: Clusters)
    requires first.key.Some? && TextsOf(cs) == map[tools.keyOf(UNTITLED) := UNTITLED]
    ensures var ms := [first, Mention("", 1, None)];
            (exists i :: CollidesAt(tools, threshold, 1, StartSeeds(tools, cs), ms, i))
            <==> !(Near(tools, "", UNTITLED) > 0.0 && Near(tools, "", UNTITLED) >= threshold)
  {
    var ms := [first, Mention("", 1, None)];
    var start := StartSeeds(tools, cs);
    assert tools.keyOf(UNTITLED) in TextsOf(cs);
    assert forall k :: k in cs <==> k in TextsOf(cs);
    assert start == map[tools.keyOf(UNTITLED) := Seed(UNTITLED, tools.embed(UNTITLED))];
    hide Similarity;
    NoMentionYet(tools, threshold, 1, start, ms);
    SkippedMention(tools, threshold, 1, start, ms, 0);
    assert CollidesAt(tools, threshold, 1, start, ms, 1) <==> Far(tools.embed(""), start, threshold);
    assert forall i :: CollidesAt(tools, threshold, 1, start, ms, i) ==> i == 1;
  }

  lemma FirstEmptyTopic(tools: Tools, threshold: real)
    ensures var ms := [Mention("", 0, None)];
            && (forall i :: !CollidesAt(tools, threshold, 0, map[], ms, i))
            && SeedTexts(SeedsAfter(tools, threshold, 0, map[], ms)) == map[tools.keyOf(UNTITLED) := UNTITLED]
  {
    var ms := [Mention("", 0, None)];
    NoMentionYet(tools, threshold, 0, map[], ms);
    OneMoreMention(tools, threshold, 0, map[], ms, 0);
    assert ms[..1] == ms;
  }

  /**
    Two mentions without topic, one pass for each. The first is stored as "untitled"; the second
    is compared with the signature of that word, and unless it is near it asks for the same key
    again, and the second pass ends in an error.
  */
  method EmptyTopicTwice(tools: Tools, threshold: real) returns (failed: bool)
    ensures failed <==> !(Near(tools, "", UNTITLED) > 0.0 && Near(tools, "", UNTITLED) >= threshold)
  {
    hide *;
    var store := new NarrativeStore([Mention("", 0, None)]);
    FirstEmptyTopic(tools, threshold);
    NothingToStart(tools);
    var first := store.ClusterMentions(tools, 0, threshold);
    FirstIsKeyed(store.mentions);
    store.mentions := store.mentions + [Mention("", 1, None)];
    assert store.mentions == [store.mentions[0], Mention("", 1, None)];
    SecondEmptyTopic(tools, threshold, store.mentions[0], store.clusters.items);
    var second := store.ClusterMentions(tools, 1, threshold);
    failed := second.None?;
  }

  lemma NothingToStart(tools: Tools)
    ensures StartSeeds(tools, map[]) == map[]
  {
  }

  lemma FirstIsKeyed(ms: seq<Mention>)
    ensures PassedBy([Mention("", 0, None)], ms, |ms|, 0) ==> |ms| == 1 && ms[0].key.Some?
  {
  }
}
