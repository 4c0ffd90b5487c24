/**
 * The policy editor: three policy texts edited in place, a preview route for
 * each, and word, character and line counts of the text being edited.
 */
module AdminPolicies {
  import opened Wrappers
  import opened Text

  datatype PolicyKind = Privacy | Terms | Refund

  /** `lastUpdated` is the time of the last edit in milliseconds. */
  datatype Policy = Policy(title: string, content: string, lastUpdated: int)

  function Title(kind: PolicyKind): string {
    match kind
    case Privacy => "Privacy Policy"
    case Terms => "Terms & Conditions"
    case Refund => "Refund Policy"
  }

  /** `previewPolicy`'s route table. */
  function PreviewRoute(kind: PolicyKind): (r: string)
    ensures PolicyAt(r) == Some(kind)
  {
    match kind
    case Privacy => "/privacy-policy"
    case Terms => "/terms-conditions"
    case Refund => "/refund-policy"
  }

  /** Which policy a preview route shows, if any. */
  function PolicyAt(route: string): Option<PolicyKind> {
    if route == "/privacy-policy" then Some(Privacy)
    else if route == "/terms-conditions" then Some(Terms)
    else if route == "/refund-policy" then Some(Refund)
    else None
  }

  /** Each policy has its own route, and the route leads back to that policy. */
  lemma PreviewRoutesDistinct(a: PolicyKind, b: PolicyKind)
    ensures PolicyAt(PreviewRoute(a)) == Some(a)
    ensures PreviewRoute(a) == PreviewRoute(b) <==> a == b
  {
    assert PolicyAt(PreviewRoute(b)) == Some(b);
  }

  // ------------------------------------------------------------------ content statistics

  datatype ContentStats = ContentStats(words: nat, characters: nat, lines: nat)

  /** Pieces between single spaces, characters, and pieces between line breaks. */
  function StatsOf(content: string): (s: ContentStats)
    ensures s.words == Occurrences(content, ' ') + 1
    ensures s.characters == |content|
    ensures s.lines == Occurrences(content, '\n') + 1
  {
    SplitCount(content, ' ');
    SplitCount(content, '\n');
    ContentStats(|Split(content, ' ')|, |content|, |Split(content, '\n')|)
  }

  lemma {:induction false} OccurrencesAtMost(s: string, c: char)
    ensures Occurrences(s, c) <= |s|
  {
    if s != [] {
      OccurrencesAtMost(s[1..], c);
    }
  }

  lemma {:induction false} OccurrencesDisjoint(s: string, c: char, d: char)
    requires c != d
    ensures Occurrences(s, c) + Occurrences(s, d) <= |s|
  {
    if s != [] {
      OccurrencesDisjoint(s[1..], c, d);
    }
  }

  /**
   * Empty content counts one word and one line; every count is at most one more
   * than the characters, and spaces and line breaks together at most the characters.
   */
  lemma StatsBounds(content: string)
    ensures content == "" ==> StatsOf(content) == ContentStats(1, 0, 1)
    ensures 1 <= StatsOf(content).words <= |content| + 1
    ensures 1 <= StatsOf(content).lines <= |content| + 1
    ensures StatsOf(content).words + StatsOf(content).lines <= |content| + 2
  {
    OccurrencesDisjoint(content, ' ', '\n');
  }

  /** The word pieces, joined back with spaces, are the content. */
  lemma WordsRebuildContent(content: string)
    ensures Join(Split(content, ' '), ' ') == content
    ensures |Split(content, ' ')| == StatsOf(content).words
  {
    JoinSplit(content, ' ');
  }

  // ------------------------------------------------------------------ state

  /** The `policies` object: one record under each of the three keys. */
  datatype Policies = Policies(privacy: Policy, terms: Policy, refund: Policy) {
    function Get(kind: PolicyKind): Policy {
      match kind
      case Privacy => privacy
      case Terms => terms
      case Refund => refund
    }

    /** The object with one key's record replaced. */
    function Set(kind: PolicyKind, p: Policy): (r: Policies)
      ensures r.Get(kind) == p
      ensures forall k :: k != kind ==> r.Get(k) == Get(k)
    {
      match kind
      case Privacy => this.(privacy := p)
      case Terms => this.(terms := p)
      case Refund => this.(refund := p)
    }
  }

  class PolicyEditor {
    var policies: Policies
    var activeTab: PolicyKind

    /** Each policy keeps its own title. */
    ghost predicate Valid()
      reads this
    {
      forall k :: policies.Get(k).title == Title(k)
    }

    /** The three policies with their built-in texts, stamped `now`; the privacy tab first. */
    constructor (privacyText: string, termsText: string, refundText: string, now: int)
      ensures Valid() && activeTab == Privacy
      ensures policies.Get(Privacy).content == privacyText && policies.Get(Terms).content == termsText
      ensures policies.Get(Refund).content == refundText
      ensures forall k :: policies.Get(k).lastUpdated == now
    {
      policies := Policies(
        Policy(Title(Privacy), privacyText, now),
        Policy(Title(Terms), termsText, now),
        Policy(Title(Refund), refundText, now));
      activeTab := Privacy;
    }

    /** `handleContentChange`: new text and edit time for one policy, nothing else touched. */
    method HandleContentChange(kind: PolicyKind, content: string, now: int)
      requires Valid()
      modifies this
      ensures Valid() && activeTab == old(activeTab)
      ensures policies.Get(kind) == Policy(old(policies).Get(kind).title, content, now)
      ensures forall k :: k != kind ==> policies.Get(k) == old(policies).Get(k)
    {
      policies := policies.Set(kind, policies.Get(kind).(content := content, lastUpdated := now));
    }

    method SetActiveTab(kind: PolicyKind)
      modifies this
      ensures activeTab == kind && policies == old(policies)
    {
      activeTab := kind;
    }

    /** The statistics panel for the open tab. */
    function ActiveStats(): (s: ContentStats)
      reads this
      ensures s.characters == |policies.Get(activeTab).content|
      ensures s.words == Occurrences(policies.Get(activeTab).content, ' ') + 1
      ensures s.lines == Occurrences(policies.Get(activeTab).content, '\n') + 1
    {
      StatsOf(policies.Get(activeTab).content)
    }
  }
}
