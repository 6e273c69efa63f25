/**
 * The follow controller: a user follows or unfollows a food partner, and the
 * partner's `followersCount` moves with the follow records.
 */
module FollowController {
  import opened Models
  import opened Records

  const AuthenticationRequired := "Authentication required"
  const PartnerIdRequired := "Food partner id is required"
  const PartnerNotFound := "Food partner not found"

  /** The JSON body of a successful toggle. */
  datatype FollowReply = FollowReply(isFollowing: bool, followersCount: int)

  /** `Math.max(n, 0)`. */
  function AtLeastZero(n: int): (r: int)
    ensures r >= 0 && r >= n
    ensures n >= 0 ==> r == n
  {
    if n < 0 then 0 else n
  }

  /** `$inc: { followersCount: d }` on partner `p`. */
  function Bumped(partners: map<PartnerId, int>, p: PartnerId, d: int): (r: map<PartnerId, int>)
    requires p in partners
    ensures r.Keys == partners.Keys && r[p] == partners[p] + d
    ensures forall q :: q in partners && q != p ==> r[q] == partners[q]
  {
    partners[p := partners[p] + d]
  }

  /** Following a partner and unfollowing it (or the reverse) restores the records and the counters. */
  lemma FollowTwiceRestores(partners: map<PartnerId, int>, follows: seq<Record>, x: Record)
    requires x.target in partners && NoDup(follows)
    ensures var follows1 := Toggle(follows, x);
      var d1 := if x in follows then -1 else 1;
      var d2 := if x in follows1 then -1 else 1;
      && multiset(Toggle(follows1, x)) == multiset(follows)
      && Bumped(Bumped(partners, x.target, d1), x.target, d2) == partners
  {
    ToggleTwice(follows, x);
    ToggleNoDup(follows, x);
  }

  /** The partners' follower counters and the follow collection of `Record(user, partner)`. */
  class FollowStore {
    var partners: map<PartnerId, int>
    var follows: seq<Record>

    /** No follow twice, and each partner's counter is its number of follow records. */
    ghost predicate Valid()
      reads this
    {
      NoDup(follows) && forall p :: p in partners ==> partners[p] == CountFor(follows, p)
    }

    /** Registered partners start with the schema's default of 0 followers. */
    constructor (registered: set<PartnerId>)
      ensures Valid()
      ensures partners == (map p | p in registered :: 0) && follows == []
    {
      partners := map p | p in registered :: 0;
      follows := [];
    }

    /**
     * `followPartner`: the guards in order (401, 400, 404) with nothing
     * changed, then the toggle. The reply's count is the stored counter,
     * clamped at 0 after an unfollow.
     */
    method FollowPartner(user: UserId, partnerId: PartnerId) returns (r: Result<FollowReply>)
      requires Valid()
      modifies this
      ensures Valid()
      ensures user == "" ==> r == Err(Unauthorized(AuthenticationRequired)) && unchanged(this)
      ensures user != "" && partnerId == "" ==> r == Err(BadRequest(PartnerIdRequired)) && unchanged(this)
      ensures user != "" && partnerId != "" && partnerId !in old(partners) ==>
        r == Err(NotFound(PartnerNotFound)) && unchanged(this)
      ensures user != "" && partnerId != "" && partnerId in old(partners) ==>
        var x := Record(user, partnerId);
        && follows == Toggle(old(follows), x)
        && (x in old(follows) ==>
              partners == Bumped(old(partners), partnerId, -1) &&
              r == Ok(FollowReply(false, AtLeastZero(partners[partnerId]))))
        && (x !in old(follows) ==>
              partners == Bumped(old(partners), partnerId, 1) &&
              r == Ok(FollowReply(true, partners[partnerId])))
      ensures r.Ok? ==> r.value.followersCount == partners[partnerId] >= 0
    {
      if user == "" {
        return Err(Unauthorized(AuthenticationRequired));
      }
      if partnerId == "" {
        return Err(BadRequest(PartnerIdRequired));
      }
      if partnerId !in partners {
        return Err(NotFound(PartnerNotFound));
      }
      var x := Record(user, partnerId);
      forall p | p in partners
        ensures CountFor(Toggle(follows, x), p) ==
          CountFor(follows, p) + (if p != partnerId then 0 else if x in follows then -1 else 1)
      {
        ToggleCount(follows, x, p);
      }
      ToggleNoDup(follows, x);
      if x in follows {
        follows := Toggle(follows, x);
        partners := Bumped(partners, partnerId, -1);
        r := Ok(FollowReply(false, AtLeastZero(partners[partnerId])));
      } else {
        follows := Toggle(follows, x);
        partners := Bumped(partners, partnerId, 1);
        r := Ok(FollowReply(true, partners[partnerId]));
      }
    }
  }
}
