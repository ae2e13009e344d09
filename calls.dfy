/** Video-call admission: who may join a reservation's call and when, and
    the channel, numeric uid and publishing role the call token is minted
    for. The token itself comes from a foreign signer and is not modelled. */
module Calls {
  import opened Common
  import opened ReservationEntity

  /** The role the caller asks for. */
  datatype CallRole = HostRole | ClientRole

  /** The media role written into the token. */
  datatype MediaRole = Publisher | Subscriber

  /** The two configuration keys; either may be absent. */
  datatype CallConfig = CallConfig(appId: Option<string>, appCertificate: Option<string>)

  /** What the signer is asked for and what the caller gets back besides the
      token. `uid` is None where the source computes NaN (an id without any
      digit). `expiresAt` is in seconds since the epoch. */
  datatype CallGrant = CallGrant(channelName: string, uid: Option<nat>, appId: string,
                                 mediaRole: MediaRole, expiresAt: int)

  const EarlyJoinMinutes: int := 10
  const TokenLifetimeSeconds: int := 7200
  const UidModulus: nat := 100000

  predicate IsDigit(c: char) {
    '0' <= c <= '9'
  }

  predicate AllDigits(s: string) {
    forall i :: 0 <= i < |s| ==> IsDigit(s[i])
  }

  /** The id with every non-digit removed, order kept. */
  function DigitsOf(s: string): (d: string)
    ensures AllDigits(d) && |d| <= |s|
    ensures forall c :: IsDigit(c) ==> multiset(d)[c] == multiset(s)[c]
  {
    if s == [] then []
    else
      assert s == [s[0]] + s[1..];
      (if IsDigit(s[0]) then [s[0]] else []) + DigitsOf(s[1..])
  }

  /** One character keeps itself exactly when it is a digit. */
  lemma DigitsOfChar(c: char)
    ensures DigitsOf([c]) == if IsDigit(c) then [c] else []
  {
    assert [c][1..] == [];
  }

  /** Filtering distributes over concatenation: every digit is kept, in
      the order of the text. */
  lemma {:induction false} DigitsOfConcat(a: string, b: string)
    ensures DigitsOf(a + b) == DigitsOf(a) + DigitsOf(b)
    decreases |a|
  {
    if a == [] {
      assert a + b == b;
    } else {
      assert (a + b)[0] == a[0];
      assert (a + b)[1..] == a[1..] + b;
      DigitsOfConcat(a[1..], b);
    }
  }

  /** The last `k` characters, or all of them when there are fewer. */
  function Tail(s: string, k: nat): (t: string)
    ensures |t| == if |s| <= k then |s| else k
  {
    if |s| <= k then s else s[|s| - k..]
  }

  /** The number a string of decimal digits denotes. */
  function DecimalValue(d: string): nat
    requires AllDigits(d)
  {
    if d == [] then 0 else DecimalValue(d[..|d| - 1]) * 10 + (d[|d| - 1] as int - '0' as int)
  }

  function Pow10(k: nat): (p: nat)
    ensures p >= 1
  {
    if k == 0 then 1 else 10 * Pow10(k - 1)
  }

  /** The uid derived from an id: its digits, the last six of them read as a
      decimal number, reduced modulo 100000; no uid when there is no digit. */
  function Uid(id: string): (u: Option<nat>)
    ensures u.Some? ==> u.value < UidModulus
  {
    var digits := Tail(DigitsOf(id), 6);
    if digits == [] then None else Some(DecimalValue(digits) % UidModulus)
  }

  lemma {:induction false} DigitsOfEmpty(s: string)
    ensures DigitsOf(s) == [] <==> forall i :: 0 <= i < |s| ==> !IsDigit(s[i])
  {
    if s != [] {
      DigitsOfEmpty(s[1..]);
      assert forall i :: 1 <= i < |s| ==> s[i] == s[1..][i - 1];
    }
  }

  /** An id gets a uid exactly when it contains a digit. */
  lemma UidDefinedIffDigit(id: string)
    ensures Uid(id).Some? <==> exists i :: 0 <= i < |id| && IsDigit(id[i])
  {
    DigitsOfEmpty(id);
  }

  lemma {:induction false} DecimalValueBound(d: string)
    requires AllDigits(d)
    ensures DecimalValue(d) < Pow10(|d|)
  {
    if d != [] {
      DecimalValueBound(d[..|d| - 1]);
    }
  }

  lemma MulAtLeast(d: int, m: int)
    requires d >= 1 && m > 0
    ensures d * m >= m
  {
    assert d * m == m + (d - 1) * m;
  }

  lemma ModUnique(n: int, m: int, q: int, r: int)
    requires m > 0 && 0 <= r < m && n == q * m + r
    ensures n % m == r
  {
    var q', r' := n / m, n % m;
    assert n == q' * m + r';
    var d := q - q';
    assert d * m == r' - r by {
      assert d * m == q * m - q' * m;
    }
    if d >= 1 {
      MulAtLeast(d, m);
    } else if d <= -1 {
      MulAtLeast(-d, m);
    }
  }

  lemma ModStep(a: nat, c: nat, k: nat)
    requires c < 10 && k >= 1
    ensures (10 * a + c) % Pow10(k) == 10 * (a % Pow10(k - 1)) + c
  {
    var p := Pow10(k - 1);
    var q, r := a / p, a % p;
    assert a == q * p + r;
    assert 10 * a + c == q * Pow10(k) + (10 * r + c);
    assert 10 * r + c < Pow10(k) by {
      assert r <= p - 1;
    }
    ModUnique(10 * a + c, Pow10(k), q, 10 * r + c);
  }

  /** Reducing a decimal number modulo 10^k keeps exactly its last k digits. */
  lemma {:induction false} ValueModPow(d: string, k: nat)
    requires AllDigits(d)
    ensures DecimalValue(d) % Pow10(k) == DecimalValue(Tail(d, k))
  {
    if |d| <= k {
      DecimalValueBound(d);
      Pow10Monotone(|d|, k);
      ModUnique(DecimalValue(d), Pow10(k), 0, DecimalValue(d));
    } else if k == 0 {
      assert Tail(d, k) == [];
    } else {
      var init := d[..|d| - 1];
      var c := d[|d| - 1] as int - '0' as int;
      ValueModPow(init, k - 1);
      var t := Tail(d, k);
      assert t[..|t| - 1] == Tail(init, k - 1);
      assert DecimalValue(t) == DecimalValue(Tail(init, k - 1)) * 10 + c;
      ModStep(DecimalValue(init), c, k);
    }
  }

  lemma {:induction false} Pow10Monotone(j: nat, k: nat)
    requires j <= k
    ensures Pow10(j) <= Pow10(k)
    decreases k
  {
    if j < k {
      Pow10Monotone(j, k - 1);
    }
  }

  /** The uid is the number formed by the last five digits of the id, so
      two ids whose digits end alike share a uid. */
  lemma UidIsLastFiveDigits(id: string)
    requires Uid(id).Some?
    ensures Uid(id).value == DecimalValue(Tail(DigitsOf(id), 5))
  {
    var six := Tail(DigitsOf(id), 6);
    ValueModPow(six, 5);
    assert Pow10(5) == UidModulus;
    assert Tail(six, 5) == Tail(DigitsOf(id), 5);
  }

  /** `generateToken`. The reservation must exist and the caller must be its
      customer or host. Anyone but the host is refused more than 10 minutes
      before the start; everyone is refused after the end (the end minute
      itself is allowed). The reservation's status is not looked at. The
      uid comes from the host's id when the caller asks for the host role
      and from the customer's id otherwise, and the host role publishes.
      Both credentials must be configured. */
  function GenerateToken(reservations: map<string, Reservation>, reservationId: string, userId: string,
                         role: CallRole, now: int, config: CallConfig): (r: Result<CallGrant>)
    ensures r.Ok? <==> reservationId in reservations
                       && (userId == reservations[reservationId].userId || userId == reservations[reservationId].hostId)
                       && (now >= reservations[reservationId].startTime - EarlyJoinMinutes
                           || userId == reservations[reservationId].hostId)
                       && now <= reservations[reservationId].endTime
                       && !Blank(config.appId) && !Blank(config.appCertificate)
    ensures r.Err? ==> (r.error.NotFound? <==> reservationId !in reservations)
    ensures r.Err? && reservationId in reservations ==> r.error.BadRequest?
    ensures r.Ok? ==> r.value.channelName == "dialoom-session-" + reservationId
    ensures r.Ok? ==> r.value.uid == Uid(if role == HostRole then reservations[reservationId].hostId
                                          else reservations[reservationId].userId)
    ensures r.Ok? ==> (r.value.mediaRole == Publisher <==> role == HostRole)
    ensures r.Ok? ==> r.value.expiresAt == now * 60 + TokenLifetimeSeconds && r.value.appId == config.appId.value
  {
    if reservationId !in reservations then Err(NotFound("Reservation with ID " + reservationId + " not found"))
    else
      var reservation := reservations[reservationId];
      if userId != reservation.userId && userId != reservation.hostId then
        Err(BadRequest("User is not part of this reservation"))
      else if now < reservation.startTime - EarlyJoinMinutes && userId != reservation.hostId then
        Err(BadRequest("Too early to join this call"))
      else if now > reservation.endTime then
        Err(BadRequest("This session has already ended"))
      else
        var channelName := "dialoom-session-" + reservationId;
        var uid := if role == HostRole then Uid(reservation.hostId) else Uid(reservation.userId);
        if Blank(config.appId) || Blank(config.appCertificate) then
          Err(BadRequest("Agora credentials not configured"))
        else
          Ok(CallGrant(channelName, uid, config.appId.value,
                       if role == HostRole then Publisher else Subscriber,
                       now * 60 + TokenLifetimeSeconds))
  }
}
