/**
 * Whether a Tailscale status exposes an endpoint publicly (scripts/operatoros-dev-runtime.ts): a
 * recursion through nested foreground sessions that must not overlook any of them.
 */
module Funnel {
  import opened Wrappers

  /** Parsed JSON: the own properties of an object in order, a Boolean, or anything else. */
  datatype Json = Object(members: seq<(string, Json)>) | Flag(on: bool) | Other

  datatype Answer = Enabled | Disabled | Incomplete

  const FIELDS := ["TCP", "Web", "Services", "AllowFunnel", "Foreground"]

  function Lookup(members: seq<(string, Json)>, key: string): Option<Json> {
    if members == [] then None else if members[0].0 == key then Some(members[0].1) else Lookup(members[1..], key)
  }

  /** A status that can be read at this depth: some known field, and each known field an object. */
  predicate Readable(config: Json, depth: nat) {
    config.Object? && depth <= 4 &&
    (exists i :: 0 <= i < |FIELDS| && Lookup(config.members, FIELDS[i]).Some?) &&
    (forall i :: 0 <= i < |FIELDS| && Lookup(config.members, FIELDS[i]).Some? ==> Lookup(config.members, FIELDS[i]).value.Object?)
  }

  /** What the status says of the endpoint, leaving its sessions aside. */
  function Selected(config: Json, endpoint: string): Option<Json> {
    if !config.Object? then None
    else match Lookup(config.members, "AllowFunnel")
      case Some(Object(allowed)) => Lookup(allowed, endpoint)
      case _ => None
  }

  function Sessions(config: Json): seq<(string, Json)> {
    if !config.Object? then []
    else match Lookup(config.members, "Foreground")
      case Some(Object(sessions)) => sessions
      case _ => []
  }

  /** funnelEnabledFor; Incomplete stands for its error. */
  function FunnelEnabled(config: Json, endpoint: string, depth: nat): Answer
    decreases if depth > 5 then 0 else 6 - depth, 0
  {
    if !Readable(config, depth) then Incomplete
    else match Selected(config, endpoint)
      case Some(Flag(true)) => Enabled
      case Some(Flag(false)) => AnyEnabled(Sessions(config), endpoint, depth + 1)
      case None => AnyEnabled(Sessions(config), endpoint, depth + 1)
      case _ => Incomplete
  }

  function AnyEnabled(sessions: seq<(string, Json)>, endpoint: string, depth: nat): Answer
    decreases if depth > 5 then 0 else 6 - depth, |sessions| + 1
  {
    if sessions == [] then Disabled
    else match FunnelEnabled(sessions[0].1, endpoint, depth)
      case Disabled => AnyEnabled(sessions[1..], endpoint, depth)
      case answer => answer
  }

  // ----- Nothing is overlooked -----

  datatype Visit = Visit(config: Json, depth: nat)

  /** Every nested status with its depth, each before those inside it; deeper ones than can be read are not opened. */
  function Visits(config: Json, depth: nat): seq<Visit>
    decreases if depth > 5 then 0 else 6 - depth, 0
  {
    [Visit(config, depth)] + if depth <= 4 then VisitsIn(Sessions(config), depth + 1) else []
  }

  function VisitsIn(sessions: seq<(string, Json)>, depth: nat): seq<Visit>
    decreases if depth > 5 then 0 else 6 - depth, |sessions| + 1
  {
    if sessions == [] then [] else Visits(sessions[0].1, depth) + VisitsIn(sessions[1..], depth)
  }

  /** What one status says on its own. */
  function Says(v: Visit, endpoint: string): Answer {
    if !Readable(v.config, v.depth) then Incomplete
    else match Selected(v.config, endpoint)
      case None => Disabled
      case Some(Flag(on)) => if on then Enabled else Disabled
      case _ => Incomplete
  }

  /** The first answer that is not Disabled. */
  function FirstSaid(visits: seq<Visit>, endpoint: string): Answer {
    if visits == [] then Disabled
    else if Says(visits[0], endpoint) != Disabled then Says(visits[0], endpoint)
    else FirstSaid(visits[1..], endpoint)
  }

  lemma {:induction false} FirstSaidConcat(a: seq<Visit>, b: seq<Visit>, endpoint: string)
    ensures FirstSaid(a + b, endpoint) == if FirstSaid(a, endpoint) == Disabled then FirstSaid(b, endpoint)
      else FirstSaid(a, endpoint)
  {
    if a == [] {
      assert a + b == b;
    } else {
      assert (a + b)[0] == a[0] && (a + b)[1..] == a[1..] + b;
      FirstSaidConcat(a[1..], b, endpoint);
    }
  }

  /** The recursion answers as a scan of every nested status would. */
  lemma {:induction false} RecursionIsScan(config: Json, endpoint: string, depth: nat)
    ensures FunnelEnabled(config, endpoint, depth) == FirstSaid(Visits(config, depth), endpoint)
    decreases if depth > 5 then 0 else 6 - depth, 0
  {
    var here := [Visit(config, depth)];
    var inside := if depth <= 4 then VisitsIn(Sessions(config), depth + 1) else [];
    FirstSaidConcat(here, inside, endpoint);
    assert FirstSaid(here, endpoint) == Says(here[0], endpoint);
    if depth <= 4 { SessionsAreScanned(Sessions(config), endpoint, depth + 1); }
  }

  lemma {:induction false} SessionsAreScanned(sessions: seq<(string, Json)>, endpoint: string, depth: nat)
    ensures AnyEnabled(sessions, endpoint, depth) == FirstSaid(VisitsIn(sessions, depth), endpoint)
    decreases if depth > 5 then 0 else 6 - depth, |sessions| + 1
  {
    if sessions != [] {
      RecursionIsScan(sessions[0].1, endpoint, depth);
      SessionsAreScanned(sessions[1..], endpoint, depth);
      FirstSaidConcat(Visits(sessions[0].1, depth), VisitsIn(sessions[1..], depth), endpoint);
    }
  }

  lemma {:induction false} FirstSaidIsSaid(visits: seq<Visit>, endpoint: string)
    ensures FirstSaid(visits, endpoint) == Disabled <==> forall v :: v in visits ==> Says(v, endpoint) == Disabled
    ensures FirstSaid(visits, endpoint) != Disabled ==>
      exists v :: v in visits && Says(v, endpoint) == FirstSaid(visits, endpoint)
  {
    if visits != [] {
      FirstSaidIsSaid(visits[1..], endpoint);
      assert visits == [visits[0]] + visits[1..];
    }
  }

  /** A lookup finds the first member of that name. */
  lemma {:induction false} LookupIff(members: seq<(string, Json)>, key: string, v: Json)
    ensures Lookup(members, key) == Some(v) <==>
      exists i :: 0 <= i < |members| && members[i] == (key, v) && forall j :: 0 <= j < i ==> members[j].0 != key
  {
    if members != [] {
      var rest := members[1..];
      LookupIff(rest, key, v);
      if i :| 0 <= i < |rest| && rest[i] == (key, v) && forall j :: 0 <= j < i ==> rest[j].0 != key {
        if members[0].0 != key {
          assert members[i + 1] == (key, v);
          assert forall j :: 0 < j < i + 1 ==> members[j] == rest[j - 1];
        }
      }
      if i :| 0 <= i < |members| && members[i] == (key, v) && forall j :: 0 <= j < i ==> members[j].0 != key {
        if i > 0 {
          assert rest[i - 1] == (key, v);
          assert forall j :: 0 <= j < i - 1 ==> rest[j] == members[j + 1];
        }
      }
    }
  }

  // ----- Nested statuses by their path -----

  /** A status and the one found from it by following foreground sessions. */
  ghost predicate Nested(config: Json, path: seq<string>, inner: Json)
    decreases |path|
  {
    if path == [] then inner == config
    else
      config.Object? && exists sessions, next ::
        Lookup(config.members, "Foreground") == Some(Object(sessions)) && (path[0], next) in sessions && Nested(next, path[1..], inner)
  }

  /** It is an object with a field of a status, and its fields of a status are objects. */
  ghost predicate IsStatus(config: Json) {
    && config.Object?
    && (exists f :: f in {"TCP", "Web", "Services", "AllowFunnel", "Foreground"} && Lookup(config.members, f).Some?)
    && forall f :: f in {"TCP", "Web", "Services", "AllowFunnel", "Foreground"} && Lookup(config.members, f).Some? ==>
         Lookup(config.members, f).value.Object?
  }

  /** What its AllowFunnel map holds for the endpoint, if it has both. */
  ghost predicate Allows(config: Json, endpoint: string, answer: Json) {
    config.Object? && exists allowed ::
      Lookup(config.members, "AllowFunnel") == Some(Object(allowed)) && Lookup(allowed, endpoint) == Some(answer)
  }

  lemma ReadableIff(config: Json, depth: nat)
    ensures Readable(config, depth) <==> IsStatus(config) && depth <= 4
  {
    assert FIELDS[0] == "TCP" && FIELDS[1] == "Web" && FIELDS[2] == "Services" && FIELDS[3] == "AllowFunnel" && FIELDS[4] == "Foreground";
  }

  lemma SelectedIff(config: Json, endpoint: string, answer: Json)
    ensures Selected(config, endpoint) == Some(answer) <==> Allows(config, endpoint, answer)
  {
  }

  lemma SessionsIff(config: Json, session: (string, Json))
    ensures session in Sessions(config) <==>
      config.Object? && exists sessions :: Lookup(config.members, "Foreground") == Some(Object(sessions)) && session in sessions
  {
  }

  ghost predicate Reaches(config: Json, path: seq<string>, depth: nat, v: Visit) {
    v.depth == depth + |path| && Nested(config, path, v.config)
  }

  /** The visits are the nested statuses, down to the first level that cannot be read. */
  lemma {:induction false} VisitsIff(config: Json, depth: nat, v: Visit)
    ensures v in Visits(config, depth) <==> exists path: seq<string> :: Reaches(config, path, depth, v) && (path == [] || v.depth <= 5)
    decreases if depth > 5 then 0 else 6 - depth, 0
  {
    if v == Visit(config, depth) { assert Reaches(config, [], depth, v); }
    if depth <= 4 {
      VisitsInIff(Sessions(config), depth + 1, v);
      if v in VisitsIn(Sessions(config), depth + 1) {
        var s, path: seq<string> :| s in Sessions(config) && Reaches(s.1, path, depth + 1, v) && (path == [] || v.depth <= 5);
        ReachesThrough(config, depth, s, path, v);
      }
    }
    forall path: seq<string> | Reaches(config, path, depth, v) && path != [] && v.depth <= 5
      ensures v in Visits(config, depth)
    {
      var s := FirstSession(config, path, v.config);
      assert depth <= 4 && Reaches(s.1, path[1..], depth + 1, v);
    }
  }

  /** The session that a path follows first. */
  lemma FirstSession(config: Json, path: seq<string>, inner: Json) returns (s: (string, Json))
    requires path != [] && Nested(config, path, inner)
    ensures s in Sessions(config) && Nested(s.1, path[1..], inner)
  {
    var sessions, next :|
      Lookup(config.members, "Foreground") == Some(Object(sessions)) && (path[0], next) in sessions && Nested(next, path[1..], inner);
    s := (path[0], next);
    SessionsIff(config, s);
  }

  lemma ReachesThrough(config: Json, depth: nat, s: (string, Json), path: seq<string>, v: Visit)
    requires s in Sessions(config) && Reaches(s.1, path, depth + 1, v)
    ensures Reaches(config, [s.0] + path, depth, v)
  {
    assert ([s.0] + path)[1..] == path;
    SessionsIff(config, s);
  }

  lemma {:induction false} VisitsInIff(sessions: seq<(string, Json)>, depth: nat, v: Visit)
    requires 1 <= depth <= 5
    ensures v in VisitsIn(sessions, depth) <==>
      exists s, path: seq<string> :: s in sessions && Reaches(s.1, path, depth, v) && (path == [] || v.depth <= 5)
    decreases if depth > 5 then 0 else 6 - depth, |sessions| + 1
  {
    if sessions != [] {
      VisitsIff(sessions[0].1, depth, v);
      VisitsInIff(sessions[1..], depth, v);
      assert sessions == [sessions[0]] + sessions[1..];
    }
  }

  /** A status that can be read and does not allow the endpoint. */
  ghost predicate KeepsPrivate(config: Json, endpoint: string) {
    IsStatus(config) && forall answer :: Allows(config, endpoint, answer) ==> answer == Flag(false)
  }

  /**
   * The endpoint is reported private exactly when every status nested at any depth can be read, is
   * nested at most four levels deep, and does not allow it.
   */
  lemma PrivateIff(config: Json, endpoint: string)
    ensures FunnelEnabled(config, endpoint, 0) == Disabled <==>
      forall path: seq<string>, inner :: Nested(config, path, inner) ==> KeepsPrivate(inner, endpoint) && |path| <= 4
  {
    if FunnelEnabled(config, endpoint, 0) == Disabled {
      forall path: seq<string>, inner | Nested(config, path, inner) ensures KeepsPrivate(inner, endpoint) && |path| <= 4 {
        PrivateEverywhere(config, endpoint, path, inner);
      }
    } else {
      var path, inner := SomeNotPrivate(config, endpoint);
      assert Nested(config, path, inner) && !(KeepsPrivate(inner, endpoint) && |path| <= 4);
    }
  }

  lemma PrivateEverywhere(config: Json, endpoint: string, path: seq<string>, inner: Json)
    requires FunnelEnabled(config, endpoint, 0) == Disabled && Nested(config, path, inner)
    ensures KeepsPrivate(inner, endpoint) && |path| <= 4
  {
    RecursionIsScan(config, endpoint, 0);
    FirstSaidIsSaid(Visits(config, 0), endpoint);
    PrivateAt(config, endpoint, path, inner);
  }

  lemma SomeNotPrivate(config: Json, endpoint: string) returns (path: seq<string>, inner: Json)
    requires FunnelEnabled(config, endpoint, 0) != Disabled
    ensures Nested(config, path, inner) && !(KeepsPrivate(inner, endpoint) && |path| <= 4)
  {
    RecursionIsScan(config, endpoint, 0);
    FirstSaidIsSaid(Visits(config, 0), endpoint);
    var v :| v in Visits(config, 0) && Says(v, endpoint) != Disabled;
    path := PathOf(config, v);
    inner := v.config;
    SaysIff(v, endpoint);
  }

  /** It is reported public only if some status allows it. */
  lemma PublicIsAllowed(config: Json, endpoint: string) returns (path: seq<string>, inner: Json)
    requires FunnelEnabled(config, endpoint, 0) == Enabled
    ensures Nested(config, path, inner) && Allows(inner, endpoint, Flag(true))
  {
    RecursionIsScan(config, endpoint, 0);
    FirstSaidIsSaid(Visits(config, 0), endpoint);
    var v :| v in Visits(config, 0) && Says(v, endpoint) == Enabled;
    path := PathOf(config, v);
    inner := v.config;
    SelectedIff(v.config, endpoint, Flag(true));
  }

  lemma PathOf(config: Json, v: Visit) returns (path: seq<string>)
    requires v in Visits(config, 0)
    ensures Nested(config, path, v.config) && |path| == v.depth
  {
    VisitsIff(config, 0, v);
    path :| Reaches(config, path, 0, v);
  }

  lemma SaysIff(v: Visit, endpoint: string)
    ensures Says(v, endpoint) == Disabled <==> KeepsPrivate(v.config, endpoint) && v.depth <= 4
  {
    ReadableIff(v.config, v.depth);
    var s := Selected(v.config, endpoint);
    if s.Some? { SelectedIff(v.config, endpoint, s.value); }
    forall answer | Allows(v.config, endpoint, answer) ensures s == Some(answer) { SelectedIff(v.config, endpoint, answer); }
  }

  /** If every visit says private, no path leads deeper than the visits go. */
  lemma {:induction false} PrivateAt(config: Json, endpoint: string, path: seq<string>, inner: Json)
    requires Nested(config, path, inner) && forall v :: v in Visits(config, 0) ==> Says(v, endpoint) == Disabled
    ensures KeepsPrivate(inner, endpoint) && |path| <= 4
    decreases |path|
  {
    if |path| > 5 {
      var before := PathBefore(config, path, inner);
      PrivateAt(config, endpoint, path[..|path| - 1], before);
    } else {
      var v := Visit(inner, |path|);
      assert Reaches(config, path, 0, v);
      VisitsIff(config, 0, v);
      SaysIff(v, endpoint);
    }
  }

  /** The status one step before. */
  lemma {:induction false} PathBefore(config: Json, path: seq<string>, inner: Json) returns (before: Json)
    requires path != [] && Nested(config, path, inner)
    ensures Nested(config, path[..|path| - 1], before)
    decreases |path|
  {
    if |path| == 1 {
      before := config;
    } else {
      var s := FirstSession(config, path, inner);
      var sessions, next :|
        Lookup(config.members, "Foreground") == Some(Object(sessions)) && (path[0], next) in sessions && Nested(next, path[1..], inner);
      before := PathBefore(next, path[1..], inner);
      var front := path[..|path| - 1];
      assert front[1..] == path[1..][..|path[1..]| - 1] && front[0] == path[0];
    }
  }
}
