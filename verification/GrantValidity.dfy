/** Standing-grant time bounds. */
module GrantValidity {
  import opened Wrappers
  import opened Limits

  datatype Bounds = Bounds(notBefore: nat, notAfter: Option<nat>) {
    predicate WellFormed() {
      if notAfter.Some? then notBefore < notAfter.value <= MAX_SAFE else notBefore <= MAX_SAFE
    }

    predicate Contains(now: nat) {
      now <= MAX_SAFE && notBefore <= now && (notAfter.Some? ==> now < notAfter.value)
    }

    /** Whether the grant has not run out at `now`, begun or not. */
    predicate Live(now: nat) {
      notAfter.Some? ==> now < notAfter.value
    }

    /** Whether the grant lasts until `t`, as an end. */
    predicate Reaches(t: nat) {
      notAfter.Some? ==> t <= notAfter.value
    }
  }

  type Grant = b: Bounds | b.WellFormed() witness Bounds(0, None)

  function Dated(notBefore: nat, notAfter: nat): (r: Option<Grant>)
    ensures r.Some? <==> notBefore < notAfter <= MAX_SAFE
    ensures r.Some? ==> forall t: nat :: r.value.Contains(t) <==> notBefore <= t < notAfter
  {
    if notBefore >= notAfter || notAfter > MAX_SAFE then None else Some(Bounds(notBefore, Some(notAfter)))
  }

  function UntilRevoked(notBefore: nat): (r: Option<Grant>)
    ensures r.Some? <==> notBefore <= MAX_SAFE
    ensures r.Some? ==> forall t: nat :: r.value.Contains(t) <==> notBefore <= t <= MAX_SAFE
  {
    if notBefore > MAX_SAFE then None else Some(Bounds(notBefore, None))
  }

  predicate ContainedBy(child: Grant, parent: Grant) {
    && child.notBefore >= parent.notBefore
    && match (child.notAfter, parent.notAfter)
       case (_, None) => true
       case (Some(c), Some(p)) => c <= p
       case (None, Some(_)) => false
  }

  /** The comparison of bounds is containment of instants. */
  lemma ContainedByIsContainment(child: Grant, parent: Grant)
    ensures ContainedBy(child, parent) <==> forall t: nat :: child.Contains(t) ==> parent.Contains(t)
  {
    if forall t: nat :: child.Contains(t) ==> parent.Contains(t) {
      assert child.Contains(child.notBefore);
      var last := if child.notAfter.Some? then child.notAfter.value - 1 else MAX_SAFE;
      assert child.Contains(last);
    }
  }

  /**
   The latest end, within the lifetime, up to which a grant held now is held throughout. It is refused
   when the grant is not held now, the lifetime is out of range, or the end would be past the last safe time.
   */
  function CredentialDeadline(g: Grant, now: nat, lifetime: nat): (r: Option<nat>)
    ensures r.Some? <==> && g.Contains(now) && 1 <= lifetime <= 3600
                         && (g.notAfter.Some? || now + lifetime <= MAX_SAFE)
    ensures r.Some? ==> now < r.value <= now + lifetime && r.value <= MAX_SAFE
    ensures r.Some? ==> forall t: nat | now <= t < r.value :: g.Contains(t)
    ensures r.Some? && r.value < now + lifetime ==> !g.Contains(r.value)
    ensures r.Some? ==> forall t: nat | t <= now + lifetime :: g.Reaches(t) <==> t <= r.value
  {
    if !g.Contains(now) || lifetime < 1 || lifetime > 3600 then None
    else
      var deadline := match g.notAfter
        case None => now + lifetime
        case Some(end) => if end < now + lifetime then end else now + lifetime;
      if deadline > MAX_SAFE then None else Some(deadline)
  }
}
