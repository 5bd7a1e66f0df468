/**
 * Authorization of a user for an action: the `Permission` interface and its
 * three implementations `ByName`, `All` and `Any`.
 *
 * The external permission store (`Permissions.allowed(user, name)`) is an
 * oracle function. Besides the decision, the model keeps the sequence of
 * action names the stores are asked about, so that the short-circuit
 * behaviour of the `for`/`break` loop and of `allMatch`/`anyMatch` can be
 * stated.
 */
module Permissions {
  import opened Wrappers
  import Search

  /** An authenticated user, identified by name. */
  type User = string

  /** The permission store: does it grant the named action to the user? */
  type Store = (User, string) -> bool

  datatype Permission =
    /** Allowed when `perm` grants any of the action's synonym names, tried in order. */
    | ByName(perm: Store, names: seq<string>)
    /** Allowed when every origin permission allows. */
    | All(origin: seq<Permission>)
    /** Allowed when at least one origin permission allows. */
    | Any(origin: seq<Permission>)

  /** The test the synonym loop applies to each name. */
  function GrantedTo(perm: Store, u: User): string -> bool {
    name => perm(u, name)
  }

  /**
   * `Permission.allowed(user)`. A by-name permission allows when its store
   * grants some synonym; for `All` and `Any` see AllIsConjunction and
   * AnyIsDisjunction.
   */
  function Allowed(p: Permission, u: User): (r: bool)
    ensures p.ByName? ==> (r <==> exists i :: 0 <= i < |p.names| && p.perm(u, p.names[i]))
    decreases p
  {
    match p
    case ByName(perm, names) => Search.FirstIndex(names, GrantedTo(perm, u)).Some?
    case All(origin) => AllMatch(origin, u)
    case Any(origin) => AnyMatch(origin, u)
  }

  /** `allMatch` over the origins, stopping at the first one that denies. */
  function AllMatch(ps: seq<Permission>, u: User): bool
    decreases ps
  {
    if ps == [] then true else Allowed(ps[0], u) && AllMatch(ps[1..], u)
  }

  /** `anyMatch` over the origins, stopping at the first one that allows. */
  function AnyMatch(ps: seq<Permission>, u: User): bool
    decreases ps
  {
    if ps == [] then false else Allowed(ps[0], u) || AnyMatch(ps[1..], u)
  }

  /**
   * The action names a by-name permission asks its store about: the synonyms
   * up to and including the first granted one, or all of them if none is.
   */
  function SynonymsAsked(perm: Store, names: seq<string>, u: User): (asked: seq<string>)
    ensures asked <= names
    ensures forall i :: 0 <= i < |asked| - 1 ==> !perm(u, asked[i])
    ensures Allowed(ByName(perm, names), u) <==> asked != [] && perm(u, asked[|asked| - 1])
    ensures !Allowed(ByName(perm, names), u) ==> asked == names
  {
    match Search.FirstIndex(names, GrantedTo(perm, u))
    case Some(k) => names[..k + 1]
    case None => names
  }

  /** Every synonym name of every by-name leaf of `p`. */
  function Synonyms(p: Permission): set<string>
    decreases p
  {
    match p
    case ByName(_, names) => set i | 0 <= i < |names| :: names[i]
    case All(origin) => SynonymsOf(origin)
    case Any(origin) => SynonymsOf(origin)
  }

  function SynonymsOf(ps: seq<Permission>): set<string>
    decreases ps
  {
    if ps == [] then {} else Synonyms(ps[0]) + SynonymsOf(ps[1..])
  }

  /** How many synonym names the by-name leaves of `p` hold in all. */
  function SynonymCount(p: Permission): nat
    decreases p
  {
    match p
    case ByName(_, names) => |names|
    case All(origin) => SynonymCountOf(origin)
    case Any(origin) => SynonymCountOf(origin)
  }

  function SynonymCountOf(ps: seq<Permission>): nat
    decreases ps
  {
    if ps == [] then 0 else SynonymCount(ps[0]) + SynonymCountOf(ps[1..])
  }

  /**
   * The names asked of the stores, in order, while evaluating `p` for `u`.
   * Stores are asked only about synonyms of the leaves, and no more questions
   * are asked than the leaves hold synonym names.
   */
  function Queries(p: Permission, u: User): (asked: seq<string>)
    ensures |asked| <= SynonymCount(p)
    ensures forall i :: 0 <= i < |asked| ==> asked[i] in Synonyms(p)
    decreases p
  {
    match p
    case ByName(perm, names) =>
      var asked := SynonymsAsked(perm, names, u);
      assert forall i :: 0 <= i < |asked| ==> asked[i] == names[i];
      asked
    case All(origin) => AllQueries(origin, u)
    case Any(origin) => AnyQueries(origin, u)
  }

  function AllQueries(ps: seq<Permission>, u: User): (asked: seq<string>)
    ensures |asked| <= SynonymCountOf(ps)
    ensures forall i :: 0 <= i < |asked| ==> asked[i] in SynonymsOf(ps)
    decreases ps
  {
    if ps == [] then []
    else Queries(ps[0], u) + (if Allowed(ps[0], u) then AllQueries(ps[1..], u) else [])
  }

  function AnyQueries(ps: seq<Permission>, u: User): (asked: seq<string>)
    ensures |asked| <= SynonymCountOf(ps)
    ensures forall i :: 0 <= i < |asked| ==> asked[i] in SynonymsOf(ps)
    decreases ps
  {
    if ps == [] then []
    else Queries(ps[0], u) + (if Allowed(ps[0], u) then [] else AnyQueries(ps[1..], u))
  }

  /**
   * `ByName.allowed`: the `for` loop over the synonyms that sets `res` and
   * breaks at the first grant. `asked` records the names passed to the store.
   */
  method ByNameAllowed(perm: Store, names: seq<string>, u: User) returns (res: bool, asked: seq<string>)
    ensures res <==> exists i :: 0 <= i < |names| && perm(u, names[i])
    ensures res == Allowed(ByName(perm, names), u)
    ensures asked == Queries(ByName(perm, names), u)
  {
    res := false;
    asked := [];
    var i := 0;
    while i < |names|
      invariant 0 <= i <= |names|
      invariant asked == names[..i]
      invariant forall j :: 0 <= j < i ==> !perm(u, names[j])
    {
      asked := asked + [names[i]];
      if perm(u, names[i]) {
        res := true;
        break;
      }
      i := i + 1;
    }
  }

  /** A by-name permission allows exactly when the store grants one of the synonyms. */
  lemma ByNameGrantsAnySynonym(perm: Store, names: seq<string>, u: User)
    ensures Allowed(ByName(perm, names), u) <==> exists i :: 0 <= i < |names| && perm(u, names[i])
  {
  }

  /**
   * The loop stops at the first granted synonym: whatever synonyms follow it,
   * they are never asked about and do not change the decision.
   */
  lemma ByNameStopsAtFirstGrant(perm: Store, names: seq<string>, rest: seq<string>, k: nat, u: User)
    requires k < |names| && perm(u, names[k])
    requires forall j :: 0 <= j < k ==> !perm(u, names[j])
    ensures Allowed(ByName(perm, names[..k + 1] + rest), u)
    ensures Queries(ByName(perm, names[..k + 1] + rest), u) == names[..k + 1]
  {
    var s := names[..k + 1] + rest;
    assert s[..k + 1] == names[..k + 1];
    assert Search.FirstIndex(s, GrantedTo(perm, u)) == Some(k);
  }

  /** Two synonyms: allowed iff the store grants the first or the second. */
  lemma TwoSynonyms(perm: Store, first: string, second: string, u: User)
    ensures Allowed(ByName(perm, [first, second]), u) <==> perm(u, first) || perm(u, second)
  {
    var names := [first, second];
    ByNameGrantsAnySynonym(perm, names, u);
    assert names[0] == first && names[1] == second;
  }

  /** `All` is the conjunction of its origins. */
  lemma {:induction false} AllIsConjunction(ps: seq<Permission>, u: User)
    ensures Allowed(All(ps), u) <==> forall i :: 0 <= i < |ps| ==> Allowed(ps[i], u)
    decreases |ps|
  {
    if ps != [] {
      AllIsConjunction(ps[1..], u);
      assert forall i :: 1 <= i < |ps| ==> ps[i] == ps[1..][i - 1];
    }
  }

  /** `Any` is the disjunction of its origins. */
  lemma {:induction false} AnyIsDisjunction(ps: seq<Permission>, u: User)
    ensures Allowed(Any(ps), u) <==> exists i :: 0 <= i < |ps| && Allowed(ps[i], u)
    decreases |ps|
  {
    if ps != [] {
      AnyIsDisjunction(ps[1..], u);
      assert forall i :: 1 <= i < |ps| ==> ps[i] == ps[1..][i - 1];
    }
  }

  /**
   * The identities of the empty cases: no synonyms denies, an empty `All`
   * allows, an empty `Any` denies, and none of them asks any store.
   */
  lemma EmptyIdentities(perm: Store, u: User)
    ensures !Allowed(ByName(perm, []), u) && Queries(ByName(perm, []), u) == []
    ensures Allowed(All([]), u) && Queries(All([]), u) == []
    ensures !Allowed(Any([]), u) && Queries(Any([]), u) == []
  {
  }

  /**
   * `All` stops at the first denying origin: two origin lists that agree up to
   * and including it are denied alike and ask the stores the same questions.
   */
  lemma {:induction false} AllStopsAtFirstDenial(ps: seq<Permission>, qs: seq<Permission>, k: nat, u: User)
    requires k < |ps| && k < |qs| && ps[..k + 1] == qs[..k + 1]
    requires !Allowed(ps[k], u)
    requires forall j :: 0 <= j < k ==> Allowed(ps[j], u)
    ensures !Allowed(All(ps), u) && !Allowed(All(qs), u)
    ensures Queries(All(ps), u) == Queries(All(qs), u)
    decreases k
  {
    assert ps[0] == ps[..k + 1][0] == qs[..k + 1][0] == qs[0];
    if k > 0 {
      assert ps[1..][..k] == ps[..k + 1][1..] == qs[..k + 1][1..] == qs[1..][..k];
      AllStopsAtFirstDenial(ps[1..], qs[1..], k - 1, u);
    }
  }

  /**
   * `Any` stops at the first allowing origin: two origin lists that agree up to
   * and including it are allowed alike and ask the stores the same questions.
   */
  lemma {:induction false} AnyStopsAtFirstGrant(ps: seq<Permission>, qs: seq<Permission>, k: nat, u: User)
    requires k < |ps| && k < |qs| && ps[..k + 1] == qs[..k + 1]
    requires Allowed(ps[k], u)
    requires forall j :: 0 <= j < k ==> !Allowed(ps[j], u)
    ensures Allowed(Any(ps), u) && Allowed(Any(qs), u)
    ensures Queries(Any(ps), u) == Queries(Any(qs), u)
    decreases k
  {
    assert ps[0] == ps[..k + 1][0] == qs[..k + 1][0] == qs[0];
    if k > 0 {
      assert ps[1..][..k] == ps[..k + 1][1..] == qs[..k + 1][1..] == qs[1..][..k];
      AnyStopsAtFirstGrant(ps[1..], qs[1..], k - 1, u);
    }
  }

  /** Every origin's names asked, in list order, as if each origin were evaluated. */
  function QueriesOf(ps: seq<Permission>, u: User): seq<string>
    decreases |ps|
  {
    if ps == [] then [] else Queries(ps[0], u) + QueriesOf(ps[1..], u)
  }

  /**
   * `All` evaluates its origins in list order up to and including the first
   * denying one: the names asked are theirs, in that order.
   */
  lemma {:induction false} AllAsksUpToFirstDenial(ps: seq<Permission>, u: User, k: nat)
    requires k < |ps| && !Allowed(ps[k], u)
    requires forall j :: 0 <= j < k ==> Allowed(ps[j], u)
    ensures Queries(All(ps), u) == QueriesOf(ps[..k + 1], u)
    decreases k
  {
    if k > 0 {
      assert ps[..k + 1][1..] == ps[1..][..k];
      AllAsksUpToFirstDenial(ps[1..], u, k - 1);
    }
  }

  /** When no origin denies, `All` asks every origin's names, in list order. */
  lemma {:induction false} AllAsksEveryOriginWhenAllowed(ps: seq<Permission>, u: User)
    requires forall j :: 0 <= j < |ps| ==> Allowed(ps[j], u)
    ensures Queries(All(ps), u) == QueriesOf(ps, u)
    decreases |ps|
  {
    if ps != [] {
      AllAsksEveryOriginWhenAllowed(ps[1..], u);
    }
  }

  /**
   * `Any` evaluates its origins in list order up to and including the first
   * allowing one: the names asked are theirs, in that order.
   */
  lemma {:induction false} AnyAsksUpToFirstGrant(ps: seq<Permission>, u: User, k: nat)
    requires k < |ps| && Allowed(ps[k], u)
    requires forall j :: 0 <= j < k ==> !Allowed(ps[j], u)
    ensures Queries(Any(ps), u) == QueriesOf(ps[..k + 1], u)
    decreases k
  {
    if k > 0 {
      assert ps[..k + 1][1..] == ps[1..][..k];
      AnyAsksUpToFirstGrant(ps[1..], u, k - 1);
    }
  }

  /** When no origin allows, `Any` asks every origin's names, in list order. */
  lemma {:induction false} AnyAsksEveryOriginWhenDenied(ps: seq<Permission>, u: User)
    requires forall j :: 0 <= j < |ps| ==> !Allowed(ps[j], u)
    ensures Queries(Any(ps), u) == QueriesOf(ps, u)
    decreases |ps|
  {
    if ps != [] {
      AnyAsksEveryOriginWhenDenied(ps[1..], u);
    }
  }
}
