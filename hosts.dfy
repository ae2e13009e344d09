/** The `hosts` table: one profile per user who offers sessions, keyed by
    that user's id, and the service that keeps the user's role in step. */
module Hosts {
  import opened Common
  import opened Users

  /** One profile. The rating is a running average over reals (the database
      column holds it to two decimals). */
  datatype Host = Host(
    userId: string,
    bio: Option<string>,
    hourlyRate: real,
    isVerified: bool,
    isFeatured: bool,
    stripeConnectId: Option<string>,
    profileImage: Option<string>,
    bannerImage: Option<string>,
    specialties: Option<seq<string>>,
    languages: Option<seq<string>>,
    totalSessions: nat,
    averageRating: real)

  /** The profile columns a caller supplies on creation: any column but the
      user id may be given. */
  datatype HostDraft = HostDraft(
    bio: Option<string>,
    hourlyRate: Option<real>,
    isVerified: Option<bool>,
    isFeatured: Option<bool>,
    stripeConnectId: Option<string>,
    profileImage: Option<string>,
    bannerImage: Option<string>,
    specialties: Option<seq<string>>,
    languages: Option<seq<string>>,
    totalSessions: Option<nat>,
    averageRating: Option<real>)

  /** The profile columns an update supplies; for a nullable column,
      `Some(None)` writes null. */
  datatype HostPatch = HostPatch(
    bio: Option<Option<string>>,
    hourlyRate: Option<real>,
    isVerified: Option<bool>,
    isFeatured: Option<bool>,
    stripeConnectId: Option<Option<string>>,
    profileImage: Option<Option<string>>,
    bannerImage: Option<Option<string>>,
    specialties: Option<Option<seq<string>>>,
    languages: Option<Option<seq<string>>>,
    totalSessions: Option<nat>,
    averageRating: Option<real>)

  /** A new profile: the columns given, and the column defaults for what
      the draft leaves out (rate 0, not verified, not featured, no
      sessions, rating 0, nullable columns null). */
  function NewHost(userId: string, d: HostDraft): (h: Host)
    ensures h.userId == userId && h.bio == d.bio && h.stripeConnectId == d.stripeConnectId
    ensures h.profileImage == d.profileImage && h.bannerImage == d.bannerImage
    ensures h.specialties == d.specialties && h.languages == d.languages
    ensures h.hourlyRate == d.hourlyRate.GetOr(0.0)
    ensures h.isVerified == d.isVerified.GetOr(false) && h.isFeatured == d.isFeatured.GetOr(false)
    ensures h.totalSessions == d.totalSessions.GetOr(0) && h.averageRating == d.averageRating.GetOr(0.0)
  {
    Host(userId, d.bio, d.hourlyRate.GetOr(0.0), d.isVerified.GetOr(false), d.isFeatured.GetOr(false),
         d.stripeConnectId, d.profileImage, d.bannerImage, d.specialties, d.languages,
         d.totalSessions.GetOr(0), d.averageRating.GetOr(0.0))
  }

  /** A draft that gives only the profile text and the connected account,
      as the host application form does. */
  function ProfileDraft(bio: Option<string>, stripeConnectId: Option<string>): HostDraft {
    HostDraft(bio, None, None, None, stripeConnectId, None, None, None, None, None, None)
  }

  /** A profile created from such a draft starts unverified, not featured,
      with no sessions, rating 0, rate 0 and no images. */
  lemma ProfileDefaults(userId: string, bio: Option<string>, stripeConnectId: Option<string>)
    ensures var h := NewHost(userId, ProfileDraft(bio, stripeConnectId));
            && !h.isVerified && !h.isFeatured && h.totalSessions == 0 && h.averageRating == 0.0 && h.hourlyRate == 0.0
            && h.profileImage.None? && h.bannerImage.None?
  {}

  /** Overwrites the profile columns the patch supplies and keeps the rest. */
  function ApplyHostPatch(h: Host, p: HostPatch): (g: Host)
    ensures g.userId == h.userId
    ensures g.bio == p.bio.GetOr(h.bio)
    ensures g.hourlyRate == p.hourlyRate.GetOr(h.hourlyRate)
    ensures g.isVerified == p.isVerified.GetOr(h.isVerified) && g.isFeatured == p.isFeatured.GetOr(h.isFeatured)
    ensures g.stripeConnectId == p.stripeConnectId.GetOr(h.stripeConnectId)
    ensures g.profileImage == p.profileImage.GetOr(h.profileImage)
    ensures g.bannerImage == p.bannerImage.GetOr(h.bannerImage)
    ensures g.specialties == p.specialties.GetOr(h.specialties)
    ensures g.languages == p.languages.GetOr(h.languages)
    ensures g.totalSessions == p.totalSessions.GetOr(h.totalSessions)
    ensures g.averageRating == p.averageRating.GetOr(h.averageRating)
  {
    h.(bio := p.bio.GetOr(h.bio),
       hourlyRate := p.hourlyRate.GetOr(h.hourlyRate),
       isVerified := p.isVerified.GetOr(h.isVerified),
       isFeatured := p.isFeatured.GetOr(h.isFeatured),
       stripeConnectId := p.stripeConnectId.GetOr(h.stripeConnectId),
       profileImage := p.profileImage.GetOr(h.profileImage),
       bannerImage := p.bannerImage.GetOr(h.bannerImage),
       specialties := p.specialties.GetOr(h.specialties),
       languages := p.languages.GetOr(h.languages),
       totalSessions := p.totalSessions.GetOr(h.totalSessions),
       averageRating := p.averageRating.GetOr(h.averageRating))
  }

  /** Applying the same update twice is applying it once. */
  lemma HostPatchIdempotent(h: Host, p: HostPatch)
    ensures ApplyHostPatch(ApplyHostPatch(h, p), p) == ApplyHostPatch(h, p)
  {}

  /** Writing null to the images clears them and changes nothing else. */
  lemma ClearImages(h: Host)
    ensures ApplyHostPatch(h, HostPatch(None, None, None, None, None, Some(None), Some(None), None, None, None, None))
            == h.(profileImage := None, bannerImage := None)
  {}

  /** The rating average after one more session rated `rating`, when `n`
      sessions averaged `avg` (before the two-decimal rounding). */
  function NextAverage(avg: real, n: nat, rating: real): real {
    (avg * n as real + rating) / (n + 1) as real
  }

  function Sum(ratings: seq<real>): real {
    if ratings == [] then 0.0 else Sum(ratings[..|ratings| - 1]) + ratings[|ratings| - 1]
  }

  /** The session count and average after rating sessions one at a time,
      starting from a new profile. */
  function Replay(ratings: seq<real>): (nat, real) {
    if ratings == [] then (0, 0.0)
    else
      var prev := Replay(ratings[..|ratings| - 1]);
      (prev.0 + 1, NextAverage(prev.1, prev.0, ratings[|ratings| - 1]))
  }

  /** The running average is the mean of all ratings given so far, and the
      session count is their number. */
  lemma {:induction false} ReplayIsMean(ratings: seq<real>)
    ensures Replay(ratings).0 == |ratings|
    ensures Replay(ratings).1 * |ratings| as real == Sum(ratings)
  {
    if ratings != [] {
      var init := ratings[..|ratings| - 1];
      ReplayIsMean(init);
      var n := |init|;
      var avg := Replay(init).1;
      var x := ratings[|ratings| - 1];
      calc {
        NextAverage(avg, n, x) * (n + 1) as real;
        ((avg * n as real + x) / (n + 1) as real) * (n + 1) as real;
        avg * n as real + x;
        Sum(init) + x;
      }
    }
  }

  lemma MulNonneg(a: real, b: real)
    requires a >= 0.0 && b >= 0.0
    ensures a * b >= 0.0
  {}

  /** A rating within [0, 5] keeps an average within [0, 5] there. */
  lemma NextAverageInRange(avg: real, n: nat, rating: real)
    requires 0.0 <= avg <= 5.0 && 0.0 <= rating <= 5.0
    ensures 0.0 <= NextAverage(avg, n, rating) <= 5.0
  {
    var m := n as real;
    var d := m + 1.0;
    MulNonneg(5.0 - avg, m);
    MulNonneg(avg, m);
    var x := avg * m + rating;
    assert 0.0 <= x <= 5.0 * d;
    assert NextAverage(avg, n, rating) == x / d;
    assert x / d <= (5.0 * d) / d;
  }

  /** Whether `findAll` lists a profile: its user exists and is not banned,
      and, when a featured filter is given, the flag matches it. */
  predicate Listed(h: Host, users: map<string, User>, featured: Option<bool>) {
    && h.userId in users
    && !users[h.userId].isBanned
    && (featured.Some? ==> h.isFeatured == featured.value)
  }

  class HostsService {
    var hosts: map<string, Host>
    const users: UsersService

    ghost predicate Valid()
      reads this, users
    {
      && users.Valid()
      && (forall id :: id in hosts ==> hosts[id].userId == id)
    }

    constructor (users: UsersService)
      requires users.Valid()
      ensures Valid() && hosts == map[] && this.users == users
    {
      hosts := map[];
      this.users := users;
    }

    /** `findAll`: the profiles of users who are not banned, optionally only
        the featured (or only the non-featured) ones. */
    function FindAll(featured: Option<bool>): (r: set<Host>)
      reads this, users
      ensures forall h :: h in r <==> h in hosts.Values && Listed(h, users.users, featured)
    {
      set h | h in hosts.Values && Listed(h, users.users, featured)
    }

    /** `findById`: looks the profile up by its user id. */
    function FindById(id: string): (r: Result<Host>)
      reads this
      ensures r.Ok? <==> id in hosts
      ensures r.Ok? ==> r.value == hosts[id]
      ensures r.Err? ==> r.error.NotFound?
    {
      if id in hosts then Ok(hosts[id]) else Err(NotFound("Host with ID " + id + " not found"))
    }

    /** `create`: the user must exist and must not have a profile yet; the
        user's role becomes HOST and the profile is inserted. */
    method Create(userId: string, d: HostDraft) returns (r: Result<Host>)
      requires Valid()
      modifies this, users
      ensures Valid()
      ensures r.Ok? <==> userId in old(users.users) && userId !in old(hosts)
      ensures r.Err? ==> hosts == old(hosts) && users.users == old(users.users)
      ensures r.Err? && userId !in old(users.users) ==> r.error.NotFound?
      ensures r.Err? && userId in old(users.users) ==> r.error.Conflict?
      ensures r.Ok? ==> r.value == NewHost(userId, d) && hosts == old(hosts)[userId := r.value]
      ensures r.Ok? ==> users.users == old(users.users)[userId := old(users.users)[userId].(role := HostUser)]
    {
      if userId !in users.users {
        return Err(NotFound("User with ID " + userId + " not found"));
      }
      if userId in hosts {
        return Err(Conflict("User " + userId + " is already a host"));
      }
      var _ := users.UpdateRole(userId, HostUser);
      var h := NewHost(userId, d);
      hosts := hosts[userId := h];
      r := Ok(h);
    }

    /** `update`: the profile must exist; the supplied columns are written. */
    method Update(id: string, p: HostPatch) returns (r: Result<Host>)
      requires Valid()
      modifies this
      ensures Valid()
      ensures r.Ok? <==> id in old(hosts)
      ensures r.Ok? ==> hosts == old(hosts)[id := ApplyHostPatch(old(hosts)[id], p)] && r.value == hosts[id]
      ensures r.Err? ==> r.error.NotFound? && hosts == old(hosts)
    {
      if id !in hosts {
        return Err(NotFound("Host with ID " + id + " not found"));
      }
      hosts := hosts[id := ApplyHostPatch(hosts[id], p)];
      r := Ok(hosts[id]);
    }

    /** `verify`: sets isVerified. */
    method Verify(id: string) returns (r: Result<Host>)
      requires Valid()
      modifies this
      ensures Valid()
      ensures r.Ok? <==> id in old(hosts)
      ensures r.Ok? ==> hosts == old(hosts)[id := old(hosts)[id].(isVerified := true)] && r.value == hosts[id]
      ensures r.Err? ==> r.error.NotFound? && hosts == old(hosts)
    {
      if id !in hosts {
        return Err(NotFound("Host with ID " + id + " not found"));
      }
      hosts := hosts[id := hosts[id].(isVerified := true)];
      r := Ok(hosts[id]);
    }

    /** `setFeatured`: sets isFeatured to the argument. */
    method SetFeatured(id: string, featured: bool) returns (r: Result<Host>)
      requires Valid()
      modifies this
      ensures Valid()
      ensures r.Ok? <==> id in old(hosts)
      ensures r.Ok? ==> hosts == old(hosts)[id := old(hosts)[id].(isFeatured := featured)] && r.value == hosts[id]
      ensures r.Err? ==> r.error.NotFound? && hosts == old(hosts)
    {
      if id !in hosts {
        return Err(NotFound("Host with ID " + id + " not found"));
      }
      hosts := hosts[id := hosts[id].(isFeatured := featured)];
      r := Ok(hosts[id]);
    }

    /** `updateRating`: one more session, and the average moves to the mean
        that includes the new rating. */
    method UpdateRating(id: string, rating: real) returns (r: Result<Host>)
      requires Valid()
      modifies this
      ensures Valid()
      ensures r.Ok? <==> id in old(hosts)
      ensures r.Ok? ==> hosts == old(hosts)[id := old(hosts)[id].(
                totalSessions := old(hosts)[id].totalSessions + 1,
                averageRating := NextAverage(old(hosts)[id].averageRating, old(hosts)[id].totalSessions, rating))]
      ensures r.Ok? ==> r.value == hosts[id]
      ensures r.Err? ==> r.error.NotFound? && hosts == old(hosts)
    {
      if id !in hosts {
        return Err(NotFound("Host with ID " + id + " not found"));
      }
      var h := hosts[id];
      hosts := hosts[id := h.(totalSessions := h.totalSessions + 1,
                              averageRating := NextAverage(h.averageRating, h.totalSessions, rating))];
      r := Ok(hosts[id]);
    }

    /** `delete`: the user's role goes back to USER, then the profile is
        removed. If the user row is gone the role update fails and the
        profile stays. */
    method Delete(id: string) returns (r: Result<()>)
      requires Valid()
      modifies this, users
      ensures Valid()
      ensures r.Ok? <==> id in old(hosts) && id in old(users.users)
      ensures r.Ok? ==> hosts == old(hosts) - {id}
      ensures r.Ok? ==> users.users == old(users.users)[id := old(users.users)[id].(role := RegularUser)]
      ensures r.Err? ==> r.error.NotFound? && hosts == old(hosts) && users.users == old(users.users)
    {
      if id !in hosts {
        return Err(NotFound("Host with ID " + id + " not found"));
      }
      var h := hosts[id];
      var updated := users.UpdateRole(h.userId, RegularUser);
      if updated.Err? {
        return Err(updated.error);
      }
      hosts := hosts - {id};
      r := Ok(());
    }
  }
}
