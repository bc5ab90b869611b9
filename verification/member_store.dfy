/**
 * The member store (`useMemberStore`). `fetchMembers` installs the store's
 * own mock array itself, not a copy, so later additions and removals are
 * made on the mock and survive a refetch. The state therefore keeps both
 * arrays and which one `members` currently is.
 */
module MemberStore {
  import opened Base
  import JsArray

  datatype Member = Member(name: string, username: string, role: string, avatarSrc: string)

  datatype State = State(
    own: seq<Member>,       // the array `members` started with
    mock: seq<Member>,      // `mockMembers`
    shared: bool,           // `members` is the mock array
    loading: bool,
    error: Option<string>)

  /** The list the store exposes as `members`. */
  function Members(s: State): seq<Member>
  {
    if s.shared then s.mock else s.own
  }

  /** Replaces the contents of whichever array `members` is. */
  function Put(s: State, ms: seq<Member>): (r: State)
    ensures Members(r) == ms && r.shared == s.shared && r.loading == s.loading && r.error == s.error
    ensures if s.shared then r.own == s.own else r.mock == s.mock
  {
    if s.shared then s.(mock := ms) else s.(own := ms)
  }

  function Avatar(user: string): string
  {
    "https://ipx.nuxt.com/f_auto,s_192x192/gh_avatar/" + user
  }

  const MockMembers := [
    Member("Anthony Fu", "antfu", "member", Avatar("antfu")),
    Member("Baptiste Leproux", "larbish", "member", Avatar("larbish")),
    Member("Benjamin Canac", "benjamincanac", "owner", Avatar("benjamincanac")),
    Member("Céline Dumerc", "celinedumerc", "member", Avatar("celinedumerc")),
    Member("Daniel Roe", "danielroe", "member", Avatar("danielroe")),
    Member("Farnabaz", "farnabaz", "member", Avatar("farnabaz")),
    Member("Ferdinand Coumau", "FerdinandCoumau", "member", Avatar("FerdinandCoumau")),
    Member("Hugo Richard", "hugorcd", "owner", Avatar("hugorcd")),
    Member("Pooya Parsa", "pi0", "member", Avatar("pi0")),
    Member("Sarah Moriceau", "SarahM19", "member", Avatar("SarahM19")),
    Member("Sébastien Chopin", "Atinux", "owner", Avatar("atinux"))
  ]

  const Initial := State([], MockMembers, false, false, None)

  /** The synchronous part of `fetchMembers`, before the simulated delay. */
  function BeginFetch(s: State): (r: State)
    ensures r.loading && r.error.None? && Members(r) == Members(s)
    ensures r.shared == s.shared && r.own == s.own && r.mock == s.mock
  {
    s.(loading := true, error := None)
  }

  /** The part after the delay: `members` becomes the mock array; the catch branch cannot run. */
  function FinishFetch(s: State): (r: State)
    ensures !r.loading && Members(r) == s.mock && r.mock == s.mock && r.error == s.error
    ensures r.shared && r.own == s.own
  {
    s.(shared := true, loading := false)
  }

  function FetchMembers(s: State): (r: State)
    ensures !r.loading && r.error.None? && Members(r) == s.mock
    ensures r.shared && r.mock == s.mock && r.own == s.own
  {
    FinishFetch(BeginFetch(s))
  }

  /** `addMember`: appends. */
  function AddMember(s: State, m: Member): (r: State)
    ensures Members(r) == Members(s) + [m]
    ensures r.loading == s.loading && r.error == s.error
    ensures r.shared == s.shared && (if s.shared then r.own == s.own else r.mock == s.mock)
  {
    Put(s, Members(s) + [m])
  }

  /** The `findIndex` predicate of `removeMember`. */
  function Named(username: string): Member -> bool
  {
    (m: Member) => m.username == username
  }

  /** `removeMember`: removes the first member with that username, if any. */
  function RemoveMember(s: State, username: string): (r: State)
    ensures (forall k :: 0 <= k < |Members(s)| ==> Members(s)[k].username != username) ==> r == s
    ensures (exists k :: 0 <= k < |Members(s)| && Members(s)[k].username == username) ==>
      exists i :: 0 <= i < |Members(s)|
        && Members(s)[i].username == username
        && (forall k :: 0 <= k < i ==> Members(s)[k].username != username)
        && Members(r) == Members(s)[..i] + Members(s)[i + 1..]
    ensures r.loading == s.loading && r.error == s.error
    ensures r.shared == s.shared && (if s.shared then r.own == s.own else r.mock == s.mock)
  {
    var i := JsArray.FindIndex(Members(s), Named(username));
    if i == -1 then s else Put(s, JsArray.RemoveAt(Members(s), i))
  }

  /** Removing a member just added under a fresh username gives the list back. */
  lemma AddRemoveRoundTrip(s: State, m: Member)
    requires forall k :: 0 <= k < |Members(s)| ==> Members(s)[k].username != m.username
    ensures Members(RemoveMember(AddMember(s, m), m.username)) == Members(s)
  {
    var ms := Members(AddMember(s, m));
    var i := JsArray.FindIndex(ms, Named(m.username));
    assert ms[|ms| - 1] == m;
    assert i == |Members(s)|;
  }

  /** Removal takes out exactly one member with the username, and nothing else. */
  lemma RemoveDropsOne(s: State, username: string)
    requires exists k :: 0 <= k < |Members(s)| && Members(s)[k].username == username
    ensures |Members(RemoveMember(s, username))| == |Members(s)| - 1
    ensures multiset(Members(RemoveMember(s, username))) + multiset{Members(s)[JsArray.FindIndex(Members(s), Named(username))]}
         == multiset(Members(s))
  {
    var ms := Members(s);
    var i := JsArray.FindIndex(ms, Named(username));
    JsArray.RemoveAtMultiset(ms, i);
  }

  /** Because the mock array is shared, a refetch keeps members added after the first fetch. */
  lemma RefetchKeepsLocalEdits(s: State, m: Member)
    ensures Members(FetchMembers(AddMember(FetchMembers(s), m))) == s.mock + [m]
  {
  }
}
