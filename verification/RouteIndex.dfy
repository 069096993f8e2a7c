/** app_surface_kl.py: the index of declared routes, the linter that reads it, and the front-end report. */
module RouteIndex {
  import opened Wrappers
  import opened Sequences
  import opened PathAlgebra

  /** One decorator match: the upper-cased verb and the path literal. */
  datatype Decl = Decl(verb: string, path: string)

  /** A module as the regexes see it. `appDecls` are the app-object decorators, counted for app/main.py only. */
  datatype Module = Module(stem: string, hasRouterMark: bool, prefix: Option<string>,
                           decls: seq<Decl>, appDecls: seq<Decl>, tags: seq<string>, mounted: bool)

  /** A router prefix or a router decorator cannot match in a source without the router mark. */
  ghost predicate Scanned(m: Module) {
    (!m.hasRouterMark ==> m.prefix.None? && m.decls == []) && (m.prefix.Some? ==> m.prefix.value != "")
  }

  function PrefixText(m: Module): string {
    if m.prefix.Some? then m.prefix.value else ""
  }

  function FullPath(m: Module, d: Decl): string {
    d.verb + " " + JoinPath(PrefixText(m), d.path)
  }

  /** One step of the ingest loop: a module claims a path. */
  datatype Claim = Claim(full: string, stem: string, mounted: bool, prefix: Option<string>)

  datatype Rec = Rec(stem: string, mounted: bool, prefix: Option<string>)

  function ClaimsOf(m: Module, decls: seq<Decl>): (cs: seq<Claim>)
    ensures |cs| == |decls|
    ensures forall i | 0 <= i < |decls| :: cs[i] == Claim(FullPath(m, decls[i]), m.stem, m.mounted, m.prefix)
  {
    seq(|decls|, i requires 0 <= i < |decls| => Claim(FullPath(m, decls[i]), m.stem, m.mounted, m.prefix))
  }

  function AllClaims(modules: seq<Module>): seq<Claim> {
    if modules == [] then [] else
      var m := modules[|modules| - 1];
      AllClaims(modules[..|modules| - 1]) + ClaimsOf(m, m.decls + m.appDecls)
  }

  /** The record of a path is made by its first claim and replaced by every mounted one. */
  function ByPath(claims: seq<Claim>): map<string, Rec> {
    if claims == [] then map[] else
      WithClaim(ByPath(claims[..|claims| - 1]), claims[|claims| - 1])
  }

  function WithClaim(b: map<string, Rec>, c: Claim): map<string, Rec> {
    if c.full !in b || c.mounted then b[c.full := Rec(c.stem, c.mounted, c.prefix)] else b
  }

  /** All modules that claim a path, once per claim. */
  function Owners(claims: seq<Claim>): map<string, seq<string>> {
    if claims == [] then map[] else
      WithOwner(Owners(claims[..|claims| - 1]), claims[|claims| - 1])
  }

  function WithOwner(o: map<string, seq<string>>, c: Claim): map<string, seq<string>> {
    o[c.full := (if c.full in o then o[c.full] else []) + [c.stem]]
  }

  /** The modules that claim each prefix. */
  function PrefixOwners(modules: seq<Module>): map<string, seq<string>> {
    if modules == [] then map[] else
      WithPrefix(PrefixOwners(modules[..|modules| - 1]), modules[|modules| - 1])
  }

  lemma OneMoreClaim(seen: seq<Claim>, c: Claim)
    ensures ByPath(seen + [c]) == WithClaim(ByPath(seen), c)
    ensures Owners(seen + [c]) == WithOwner(Owners(seen), c)
  {
    assert (seen + [c])[..|seen|] == seen;
  }

  function WithPrefix(p: map<string, seq<string>>, m: Module): map<string, seq<string>> {
    if m.prefix.None? then p
    else p[m.prefix.value := (if m.prefix.value in p then p[m.prefix.value] else []) + [m.stem]]
  }

  /** How often each tag is used. */
  function AllTags(modules: seq<Module>): multiset<string> {
    if modules == [] then multiset{} else
      AllTags(modules[..|modules| - 1]) + multiset(modules[|modules| - 1].tags)
  }

  lemma OneMoreModule(modules: seq<Module>, i: nat)
    requires i < |modules|
    ensures AllClaims(modules[..i + 1])
         == AllClaims(modules[..i]) + ClaimsOf(modules[i], modules[i].decls + modules[i].appDecls)
    ensures PrefixOwners(modules[..i + 1]) == WithPrefix(PrefixOwners(modules[..i]), modules[i])
    ensures AllTags(modules[..i + 1]) == AllTags(modules[..i]) + multiset(modules[i].tags)
  {
    assert modules[..i + 1][..i] == modules[..i];
  }

  /** The claim loop of one module: file the owner, set the record by default, let a mounted owner replace it. */
  method Ingest(own: seq<Claim>, ghost claims: seq<Claim>, byPath0: map<string, Rec>, owners0: map<string, seq<string>>)
    returns (byPath: map<string, Rec>, owners: map<string, seq<string>>)
    requires byPath0 == ByPath(claims) && owners0 == Owners(claims)
    ensures byPath == ByPath(claims + own) && owners == Owners(claims + own)
  {
    byPath, owners := byPath0, owners0;
    assert claims + own[..0] == claims;
    for i := 0 to |own|
      invariant byPath == ByPath(claims + own[..i]) && owners == Owners(claims + own[..i])
    {
      assert claims + own[..i + 1] == claims + own[..i] + [own[i]];
      OneMoreClaim(claims + own[..i], own[i]);
      var c := own[i];
      owners := owners[c.full := (if c.full in owners then owners[c.full] else []) + [c.stem]];
      if c.full !in byPath {
        byPath := byPath[c.full := Rec(c.stem, c.mounted, c.prefix)];
      }
      if c.mounted {
        byPath := byPath[c.full := Rec(c.stem, true, c.prefix)];
      }
    }
    assert own[..|own|] == own;
  }

  datatype Routes = Routes(byPath: map<string, Rec>, prefixOwners: map<string, seq<string>>, tags: multiset<string>,
                           duplicates: set<string>, collisions: set<string>, routeTotal: nat, liveRouteTotal: nat)

  /** `build_routes`; the report lists are sets here. */
  method BuildRoutes(modules: seq<Module>) returns (r: Routes)
    ensures r.byPath == ByPath(AllClaims(modules)) && r.prefixOwners == PrefixOwners(modules)
    ensures r.duplicates == Duplicates(AllClaims(modules)) && r.collisions == MultiplyOwned(PrefixOwners(modules))
    ensures r.tags == AllTags(modules)
    ensures r.routeTotal == |r.byPath| && r.liveRouteTotal == |LivePaths(AllClaims(modules))|
    ensures VerbsAreWords(modules) ==> r.routeTotal == |Endpoints(modules)|
    ensures VerbsAreWords(modules) ==> forall verb, path | ' ' !in verb ::
              verb + " " + path in r.duplicates <==> DeclaredByTwo(modules, verb, path)
  {
    var byPath: map<string, Rec>, owners: map<string, seq<string>> := map[], map[];
    var prefixes: map<string, seq<string>>, tags: multiset<string> := map[], multiset{};
    for i := 0 to |modules|
      invariant byPath == ByPath(AllClaims(modules[..i])) && owners == Owners(AllClaims(modules[..i]))
      invariant prefixes == PrefixOwners(modules[..i]) && tags == AllTags(modules[..i])
    {
      OneMoreModule(modules, i);
      var m := modules[i];
      if m.prefix.Some? {
        var p := m.prefix.value;
        prefixes := prefixes[p := (if p in prefixes then prefixes[p] else []) + [m.stem]];
      }
      byPath, owners := Ingest(ClaimsOf(m, m.decls + m.appDecls), AllClaims(modules[..i]), byPath, owners);
      tags := tags + multiset(m.tags);
    }
    assert modules[..|modules|] == modules;
    r := Routes(byPath, prefixes, tags, MultiplyOwned(owners), MultiplyOwned(prefixes), |byPath|, |Mounted(byPath)|);
    if VerbsAreWords(modules) {
      OneRecordPerEndpoint(modules);
      forall verb, path | ' ' !in verb
        ensures verb + " " + path in r.duplicates <==> DeclaredByTwo(modules, verb, path)
      {
        DuplicateEndpointIff(modules, verb, path);
      }
    }
  }

  /** The paths with more than one distinct owner. */
  function MultiplyOwned(owners: map<string, seq<string>>): set<string> {
    set p | p in owners && |Elems(owners[p])| > 1
  }

  function Mounted(byPath: map<string, Rec>): set<string> {
    set p | p in byPath && byPath[p].mounted
  }

  function Duplicates(claims: seq<Claim>): set<string> {
    MultiplyOwned(Owners(claims))
  }

  function LivePaths(claims: seq<Claim>): set<string> {
    Mounted(ByPath(claims))
  }

  // ----- what the index records -----

  ghost predicate Claimed(claims: seq<Claim>, full: string) {
    exists c :: c in claims && c.full == full
  }

  ghost predicate ClaimedMounted(claims: seq<Claim>, full: string) {
    exists c :: c in claims && c.full == full && c.mounted
  }

  /** The owner of a path is one of its declarers, and a mounted one as soon as any declarer is mounted. */
  lemma {:induction false} OwnerIsADeclarer(claims: seq<Claim>, full: string)
    ensures full in ByPath(claims) <==> Claimed(claims, full)
    ensures full in ByPath(claims) ==>
              var r := ByPath(claims)[full];
              Claim(full, r.stem, r.mounted, r.prefix) in claims && (r.mounted <==> ClaimedMounted(claims, full))
  {
    if claims != [] {
      var claims', c := claims[..|claims| - 1], claims[|claims| - 1];
      OwnerIsADeclarer(claims', full);
      assert claims == claims' + [c];
      assert forall x :: x in claims <==> x in claims' || x == c;
      assert ClaimedMounted(claims, full) <==> ClaimedMounted(claims', full) || (c.full == full && c.mounted);
      assert Claimed(claims, full) <==> Claimed(claims', full) || c.full == full;
    }
  }

  lemma {:induction false} OwnersAreTheDeclarers(claims: seq<Claim>, full: string)
    ensures full in Owners(claims) <==> Claimed(claims, full)
    ensures full in Owners(claims) ==>
              forall s :: s in Owners(claims)[full] <==> exists c :: c in claims && c.full == full && c.stem == s
  {
    if claims != [] {
      var claims', c := claims[..|claims| - 1], claims[|claims| - 1];
      OwnersAreTheDeclarers(claims', full);
      assert claims == claims' + [c];
      assert forall x :: x in claims <==> x in claims' || x == c;
      assert Claimed(claims, full) <==> Claimed(claims', full) || c.full == full;
    }
  }

  lemma MoreThanOne<T>(s: set<T>, x: T)
    requires x in s
    ensures |s| > 1 <==> exists y :: y in s && y != x
  {
    var rest := s - {x};
    assert s == rest + {x};
    if y :| y in s && y != x {
      assert y in rest;
    }
    if rest != {} {
      var y :| y in rest;
      assert y in s && y != x;
    }
  }

  /** Some declarer of the path is not its recorded owner. */
  ghost predicate HasOtherDeclarer(claims: seq<Claim>, full: string) {
    full in ByPath(claims) && exists c :: c in claims && c.full == full && c.stem != ByPath(claims)[full].stem
  }

  lemma DuplicateIff(claims: seq<Claim>, full: string)
    ensures full in Duplicates(claims) <==> HasOtherDeclarer(claims, full)
  {
    OwnerIsADeclarer(claims, full);
    OwnersAreTheDeclarers(claims, full);
    if full in ByPath(claims) {
      var r, owners := ByPath(claims)[full], Owners(claims)[full];
      var c := Claim(full, r.stem, r.mounted, r.prefix);
      assert c.full == full && c.stem == r.stem;
      MoreThanOne(Elems(owners), r.stem);
      if y :| y in Elems(owners) && y != r.stem {
        var c' :| c' in claims && c'.full == full && c'.stem == y;
        assert HasOtherDeclarer(claims, full);
      }
      if HasOtherDeclarer(claims, full) {
        var c' :| c' in claims && c'.full == full && c'.stem != r.stem;
        assert c'.stem in Elems(owners);
      }
    }
  }

  // ----- the linter -----

  datatype Violation =
    | NoPrefix(count: nat)
    | PrefixCollision(prefix: string, others: seq<string>)
    | DuplicateRoute(full: string, servedBy: string, live: bool)

  /** A prefix of at least two segments. */
  predicate Specific(prefix: string) {
    |Segments(prefix)| >= 2
  }

  function Others(stems: seq<string>, stem: string): seq<string> {
    if stems == [] then [] else
      var before, s := Others(stems[..|stems| - 1], stem), stems[|stems| - 1];
      if s != stem then before + [s] else before
  }

  /** Every other module, as often as it is listed. */
  lemma {:induction false} OthersAreTheOthers(stems: seq<string>, stem: string, s: string)
    ensures multiset(Others(stems, stem))[s] == if s == stem then 0 else multiset(stems)[s]
  {
    if stems != [] {
      var before, last := stems[..|stems| - 1], stems[|stems| - 1];
      assert stems == before + [last];
      OthersAreTheOthers(before, stem, s);
    }
  }

  function RouteViolations(m: Module, decls: seq<Decl>, byPath: map<string, Rec>): seq<Violation> {
    if decls == [] then [] else
      var before, full := RouteViolations(m, decls[..|decls| - 1], byPath), FullPath(m, decls[|decls| - 1]);
      if full in byPath && byPath[full].stem != m.stem
      then before + [DuplicateRoute(full, byPath[full].stem, byPath[full].mounted)] else before
  }

  function Lint(m: Module, r: Routes): seq<Violation> {
    if !m.hasRouterMark then [] else
      (if m.decls != [] && PrefixText(m) == "" then [NoPrefix(|m.decls|)] else [])
      + (if PrefixText(m) != "" && Specific(PrefixText(m)) && PrefixText(m) in r.prefixOwners
            && Others(r.prefixOwners[PrefixText(m)], m.stem) != []
         then [PrefixCollision(PrefixText(m), Others(r.prefixOwners[PrefixText(m)], m.stem))] else [])
      + RouteViolations(m, m.decls, r.byPath)
  }

  method LintDecls(m: Module, byPath: map<string, Rec>) returns (violations: seq<Violation>)
    ensures violations == RouteViolations(m, m.decls, byPath)
  {
    violations := [];
    for i := 0 to |m.decls|
      invariant violations == RouteViolations(m, m.decls[..i], byPath)
    {
      assert m.decls[..i + 1][..i] == m.decls[..i];
      var full := FullPath(m, m.decls[i]);
      if full in byPath && byPath[full].stem != m.stem {
        violations := violations + [DuplicateRoute(full, byPath[full].stem, byPath[full].mounted)];
      }
    }
    assert m.decls[..|m.decls|] == m.decls;
  }

  /** `lint_source` */
  method LintSource(m: Module, r: Routes) returns (violations: seq<Violation>)
    ensures violations == Lint(m, r)
  {
    if !m.hasRouterMark {
      return [];
    }
    var prefix := PrefixText(m);
    var missing: seq<Violation> := if m.decls != [] && prefix == "" then [NoPrefix(|m.decls|)] else [];
    var collisions := LintPrefix(m, prefix, r.prefixOwners);
    var duplicates := LintDecls(m, r.byPath);
    violations := missing + collisions + duplicates;
  }

  method LintPrefix(m: Module, prefix: string, prefixOwners: map<string, seq<string>>)
    returns (violations: seq<Violation>)
    ensures violations == if prefix != "" && |Segments(prefix)| >= 2 && prefix in prefixOwners
                             && Others(prefixOwners[prefix], m.stem) != []
                          then [PrefixCollision(prefix, Others(prefixOwners[prefix], m.stem))] else []
  {
    violations := [];
    if prefix != "" && |Segments(prefix)| >= 2 {
      var owners := if prefix in prefixOwners then Others(prefixOwners[prefix], m.stem) else [];
      if owners != [] {
        violations := [PrefixCollision(prefix, owners)];
      }
    }
  }

  ghost predicate ReportsDuplicate(m: Module, r: Routes) {
    exists v :: v in Lint(m, r) && v.DuplicateRoute?
  }

  lemma {:induction false} RouteViolationsIff(m: Module, decls: seq<Decl>, byPath: map<string, Rec>)
    ensures RouteViolations(m, decls, byPath) != []
       <==> exists d :: d in decls && FullPath(m, d) in byPath && byPath[FullPath(m, d)].stem != m.stem
    ensures forall v | v in RouteViolations(m, decls, byPath) :: v.DuplicateRoute?
  {
    if decls != [] {
      var decls', d := decls[..|decls| - 1], decls[|decls| - 1];
      RouteViolationsIff(m, decls', byPath);
      assert decls == decls' + [d];
      assert forall x :: x in decls <==> x in decls' || x == d;
    }
  }

  /** A module is told of a duplicate exactly when one of its own router declarations is recorded under
      another module. */
  lemma ReportsDuplicateIff(m: Module, r: Routes)
    requires Scanned(m)
    ensures ReportsDuplicate(m, r)
       <==> exists d :: d in m.decls && FullPath(m, d) in r.byPath && r.byPath[FullPath(m, d)].stem != m.stem
  {
    RouteViolationsIff(m, m.decls, r.byPath);
    var vs := RouteViolations(m, m.decls, r.byPath);
    if vs != [] && m.hasRouterMark {
      assert vs[0] in Lint(m, r) && vs[0].DuplicateRoute?;
    }
  }

  lemma {:induction false} ClaimsComeFromModules(modules: seq<Module>)
    ensures forall c :: c in AllClaims(modules)
                   <==> exists m, d :: m in modules && d in m.decls + m.appDecls
                                       && c == Claim(FullPath(m, d), m.stem, m.mounted, m.prefix)
  {
    if modules != [] {
      var modules', last := modules[..|modules| - 1], modules[|modules| - 1];
      ClaimsComeFromModules(modules');
      assert modules == modules' + [last];
      var own := ClaimsOf(last, last.decls + last.appDecls);
      forall m, d | m in modules && d in m.decls + m.appDecls
        ensures Claim(FullPath(m, d), m.stem, m.mounted, m.prefix) in AllClaims(modules)
      {
        if m == last {
          var i :| 0 <= i < |m.decls + m.appDecls| && (m.decls + m.appDecls)[i] == d;
          assert own[i] in own;
        }
      }
      forall c | c in AllClaims(modules)
        ensures exists m, d :: m in modules && d in m.decls + m.appDecls
                               && c == Claim(FullPath(m, d), m.stem, m.mounted, m.prefix)
      {
        if c in own {
          var i :| 0 <= i < |own| && own[i] == c;
          var d := (last.decls + last.appDecls)[i];
          assert last in modules && d in last.decls + last.appDecls
                 && c == Claim(FullPath(last, d), last.stem, last.mounted, last.prefix);
        }
      }
    }
  }

  ghost predicate NobodyReportsADuplicate(modules: seq<Module>, r: Routes) {
    forall m | m in modules :: !ReportsDuplicate(m, r)
  }

  // ----- who owns a path -----

  ghost predicate ClaimsPath(own: seq<Claim>, full: string) {
    exists c :: c in own && c.full == full
  }

  ghost predicate Declares(m: Module, full: string) {
    ClaimsPath(ClaimsOf(m, m.decls + m.appDecls), full)
  }

  function RecOf(m: Module): Rec {
    Rec(m.stem, m.mounted, m.prefix)
  }

  /** The module that is left with the path when modules take it in turn, mounted ones from anybody and others only
      from nobody. */
  ghost function OwnerOf(modules: seq<Module>, full: string): Option<Module> {
    if modules == [] then None else
      var before, last := OwnerOf(modules[..|modules| - 1], full), modules[|modules| - 1];
      if Declares(last, full) && (last.mounted || before.None?) then Some(last) else before
  }

  /** The last mounted module that declares the path; when none of them is mounted, the first that declares it. */
  ghost predicate IsOwner(modules: seq<Module>, full: string, j: nat) {
    && j < |modules| && Declares(modules[j], full)
    && if modules[j].mounted
       then forall k | j < k < |modules| && Declares(modules[k], full) :: !modules[k].mounted
       else forall k | 0 <= k < |modules| && Declares(modules[k], full) :: j <= k && !modules[k].mounted
  }

  lemma {:induction false} NoOwnerIff(modules: seq<Module>, full: string)
    ensures OwnerOf(modules, full).None? <==> forall k | 0 <= k < |modules| :: !Declares(modules[k], full)
  {
    if modules != [] {
      NoOwnerIff(modules[..|modules| - 1], full);
    }
  }

  lemma {:induction false} OwnerIsTheLastMounted(modules: seq<Module>, full: string, j: nat)
    requires IsOwner(modules, full, j)
    ensures OwnerOf(modules, full) == Some(modules[j])
  {
    var n := |modules| - 1;
    if j < n {
      assert IsOwner(modules[..n], full, j);
      OwnerIsTheLastMounted(modules[..n], full, j);
    } else {
      NoOwnerIff(modules[..n], full);
    }
  }

  lemma OwnerAtTheEnd(before: seq<Module>, last: Module, full: string)
    requires Declares(last, full)
    requires last.mounted || forall k | 0 <= k < |before| :: !Declares(before[k], full)
    ensures IsOwner(before + [last], full, |before|)
  {
    var all := before + [last];
    assert all[|before|] == last && forall k | 0 <= k < |before| :: all[k] == before[k];
  }

  lemma OwnerBefore(before: seq<Module>, last: Module, full: string, j: nat)
    requires IsOwner(before, full, j) && !(Declares(last, full) && last.mounted)
    ensures IsOwner(before + [last], full, j)
  {
    var all := before + [last];
    assert all[|before|] == last && forall k | 0 <= k < |before| :: all[k] == before[k];
  }

  /** Whoever is left with the path is that module. */
  lemma {:induction false} SomeOwner(modules: seq<Module>, full: string) returns (j: nat)
    requires OwnerOf(modules, full).Some?
    ensures IsOwner(modules, full, j) && OwnerOf(modules, full) == Some(modules[j])
  {
    var before, last := modules[..|modules| - 1], modules[|modules| - 1];
    assert modules == before + [last];
    NoOwnerIff(before, full);
    if Declares(last, full) && (last.mounted || OwnerOf(before, full).None?) {
      j := |before|;
      OwnerAtTheEnd(before, last, full);
    } else {
      j := SomeOwner(before, full);
      OwnerBefore(before, last, full, j);
    }
  }

  /** Ingesting one module's claims sets the record of a path it declares, unless it is not mounted and comes too
      late. */
  lemma {:induction false} IngestOnPath(claims: seq<Claim>, own: seq<Claim>, rec: Rec, full: string)
    requires forall c | c in own :: Rec(c.stem, c.mounted, c.prefix) == rec
    ensures var b, b' := ByPath(claims), ByPath(claims + own);
            if ClaimsPath(own, full) && (rec.mounted || full !in b) then full in b' && b'[full] == rec
            else (full in b' <==> full in b) && (full in b' ==> b'[full] == b[full])
  {
    if own == [] {
      assert claims + own == claims;
    } else {
      var before, c := own[..|own| - 1], own[|own| - 1];
      assert c in own && own == before + [c];
      IngestOnPath(claims, before, rec, full);
      assert claims + own == claims + before + [c];
      OneMoreClaim(claims + before, c);
    }
  }

  /** What the index records of a path is its owner. */
  lemma {:induction false} RecordIsTheOwners(modules: seq<Module>, full: string)
    ensures var o, b := OwnerOf(modules, full), ByPath(AllClaims(modules));
            (full in b <==> o.Some?) && (full in b ==> b[full] == RecOf(o.value))
  {
    if modules != [] {
      var before, last := modules[..|modules| - 1], modules[|modules| - 1];
      RecordIsTheOwners(before, full);
      var own := ClaimsOf(last, last.decls + last.appDecls);
      assert AllClaims(modules) == AllClaims(before) + own;
      IngestOnPath(AllClaims(before), own, RecOf(last), full);
    }
  }

  /** Two modules declare the path. */
  ghost predicate Shared(modules: seq<Module>, full: string) {
    exists m, m' :: m in modules && m' in modules && m.stem != m'.stem && Declares(m, full) && Declares(m', full)
  }

  lemma {:induction false} ClaimIff(modules: seq<Module>, c: Claim)
    ensures c in AllClaims(modules) <==> exists m :: m in modules && c in ClaimsOf(m, m.decls + m.appDecls)
  {
    if modules != [] {
      var before, last := modules[..|modules| - 1], modules[|modules| - 1];
      ClaimIff(before, c);
      assert modules == before + [last];
    }
  }

  lemma DuplicatesAreShared(modules: seq<Module>, full: string)
    ensures full in Duplicates(AllClaims(modules)) <==> Shared(modules, full)
  {
    DuplicateIff(AllClaims(modules), full);
    OwnerIsADeclarer(AllClaims(modules), full);
    if HasOtherDeclarer(AllClaims(modules), full) {
      OtherIsShared(modules, full);
    }
    if Shared(modules, full) {
      SharedHasOther(modules, full);
    }
  }

  lemma OtherIsShared(modules: seq<Module>, full: string)
    requires HasOtherDeclarer(AllClaims(modules), full)
    ensures Shared(modules, full)
  {
    var claims := AllClaims(modules);
    OwnerIsADeclarer(claims, full);
    var o := ByPath(claims)[full];
    var c :| c in claims && c.full == full && c.stem != o.stem;
    ClaimIff(modules, c);
    ClaimIff(modules, Claim(full, o.stem, o.mounted, o.prefix));
    var m :| m in modules && c in ClaimsOf(m, m.decls + m.appDecls);
    var m' :| m' in modules && Claim(full, o.stem, o.mounted, o.prefix) in ClaimsOf(m', m'.decls + m'.appDecls);
    assert Declares(m, full) && Declares(m', full);
  }

  lemma DeclarerClaims(modules: seq<Module>, m: Module, full: string) returns (c: Claim)
    requires m in modules && Declares(m, full)
    ensures c in AllClaims(modules) && c.full == full && c.stem == m.stem
  {
    c :| c in ClaimsOf(m, m.decls + m.appDecls) && c.full == full;
    ClaimIff(modules, c);
  }

  lemma SharedHasOther(modules: seq<Module>, full: string)
    requires Shared(modules, full)
    ensures HasOtherDeclarer(AllClaims(modules), full)
  {
    OwnerIsADeclarer(AllClaims(modules), full);
    var m, m' :| m in modules && m' in modules && m.stem != m'.stem && Declares(m, full) && Declares(m', full);
    var c := DeclarerClaims(modules, m, full);
    var c' := DeclarerClaims(modules, m', full);
  }

  // ----- linter against index -----

  /** The path has an owner, and that is another module. */
  ghost predicate OwnedByAnother(modules: seq<Module>, full: string, m: Module) {
    OwnerOf(modules, full).Some? && OwnerOf(modules, full).value.stem != m.stem
  }

  /** Some router decorator of the module declares a path that another module owns. */
  ghost predicate LosesAPath(modules: seq<Module>, m: Module) {
    exists d :: d in m.decls && OwnedByAnother(modules, FullPath(m, d), m)
  }

  lemma ReportsIffLoses(modules: seq<Module>, m: Module, r: Routes)
    requires Scanned(m) && r.byPath == ByPath(AllClaims(modules))
    ensures ReportsDuplicate(m, r) <==> LosesAPath(modules, m)
  {
    ReportsDuplicateIff(m, r);
    forall d | d in m.decls
      ensures OwnedByAnother(modules, FullPath(m, d), m)
         <==> FullPath(m, d) in r.byPath && r.byPath[FullPath(m, d)].stem != m.stem
    {
      RecordIsTheOwners(modules, FullPath(m, d));
    }
  }

  /** The linter is silent exactly when every module owns what its routers declare ... */
  lemma LintSilentIff(modules: seq<Module>, r: Routes)
    requires forall m | m in modules :: Scanned(m)
    requires r.byPath == ByPath(AllClaims(modules))
    ensures NobodyReportsADuplicate(modules, r) <==> forall m | m in modules :: !LosesAPath(modules, m)
  {
    forall m | m in modules {
      ReportsIffLoses(modules, m, r);
    }
  }

  lemma RouterDeclares(m: Module, d: Decl)
    requires d in m.decls
    ensures Declares(m, FullPath(m, d))
  {
    var i :| 0 <= i < |m.decls| && m.decls[i] == d;
    var cs := ClaimsOf(m, m.decls + m.appDecls);
    assert (m.decls + m.appDecls)[i] == d;
    assert cs[i] in cs && cs[i].full == FullPath(m, d);
  }

  lemma {:induction false} OwnerDeclares(modules: seq<Module>, full: string)
    requires OwnerOf(modules, full).Some?
    ensures OwnerOf(modules, full).value in modules && Declares(OwnerOf(modules, full).value, full)
  {
    var n := |modules| - 1;
    if !(Declares(modules[n], full) && (modules[n].mounted || OwnerOf(modules[..n], full).None?)) {
      OwnerDeclares(modules[..n], full);
    }
  }

  lemma LossIsShared(modules: seq<Module>, m: Module, d: Decl)
    requires m in modules && d in m.decls && OwnedByAnother(modules, FullPath(m, d), m)
    ensures Shared(modules, FullPath(m, d))
  {
    RouterDeclares(m, d);
    OwnerDeclares(modules, FullPath(m, d));
  }

  /** Paths are shared, and every module that declares a shared path by a router decorator owns that path. */
  ghost predicate HiddenDuplicates(modules: seq<Module>) {
    && (exists full :: Shared(modules, full))
    && forall m, d | m in modules && d in m.decls && Shared(modules, FullPath(m, d)) ::
         !OwnedByAnother(modules, FullPath(m, d), m)
  }

  lemma HiddenIff(modules: seq<Module>)
    ensures HiddenDuplicates(modules)
       <==> (exists full :: Shared(modules, full)) && forall m | m in modules :: !LosesAPath(modules, m)
  {
    forall m, d | m in modules && d in m.decls && OwnedByAnother(modules, FullPath(m, d), m)
      ensures Shared(modules, FullPath(m, d))
    {
      LossIsShared(modules, m, d);
    }
  }

  /** ... so it disagrees with the index's list of duplicates exactly for module lists of that kind, by saying nothing
      of duplicates that exist. */
  lemma LintAgreesIff(modules: seq<Module>, r: Routes)
    requires forall m | m in modules :: Scanned(m)
    requires r.byPath == ByPath(AllClaims(modules)) && r.duplicates == Duplicates(AllClaims(modules))
    ensures (NobodyReportsADuplicate(modules, r) <==> r.duplicates == {}) <==> !HiddenDuplicates(modules)
    ensures r.duplicates == {} ==> NobodyReportsADuplicate(modules, r)
  {
    LintSilentIff(modules, r);
    HiddenIff(modules);
    SomeDuplicateIff(modules);
    if m :| m in modules && LosesAPath(modules, m) {
      LossMeansShared(modules, m);
    }
  }

  lemma SomeDuplicateIff(modules: seq<Module>)
    ensures Duplicates(AllClaims(modules)) != {} <==> exists full :: Shared(modules, full)
  {
    forall full ensures full in Duplicates(AllClaims(modules)) <==> Shared(modules, full) {
      DuplicatesAreShared(modules, full);
    }
  }

  lemma LossMeansShared(modules: seq<Module>, m: Module)
    requires m in modules && LosesAPath(modules, m)
    ensures exists full :: Shared(modules, full)
  {
    var d :| d in m.decls && OwnedByAnother(modules, FullPath(m, d), m);
    LossIsShared(modules, m, d);
  }

  lemma RouterOnly(m: Module, full: string) returns (d: Decl)
    requires m.appDecls == [] && Declares(m, full)
    ensures d in m.decls && FullPath(m, d) == full
  {
    var ds := m.decls + m.appDecls;
    var c :| c in ClaimsOf(m, ds) && c.full == full;
    var i :| 0 <= i < |ds| && ClaimsOf(m, ds)[i] == c;
    d := ds[i];
  }

  lemma SharedIsVisible(modules: seq<Module>, full: string)
    requires Shared(modules, full) && forall m | m in modules :: m.appDecls == []
    ensures !HiddenDuplicates(modules)
  {
    var m, m' :| m in modules && m' in modules && m.stem != m'.stem && Declares(m, full) && Declares(m', full);
    var d := RouterOnly(m, full);
    var d' := RouterOnly(m', full);
    NoOwnerIff(modules, full);
    assert OwnedByAnother(modules, full, m) || OwnedByAnother(modules, full, m');
  }

  /** Without app-object decorators there are no such lists. */
  lemma LintAgreesWithIndex(modules: seq<Module>, r: Routes)
    requires forall m | m in modules :: Scanned(m) && m.appDecls == []
    requires r.byPath == ByPath(AllClaims(modules)) && r.duplicates == Duplicates(AllClaims(modules))
    ensures NobodyReportsADuplicate(modules, r) <==> r.duplicates == {}
  {
    LintAgreesIff(modules, r);
    if full :| Shared(modules, full) {
      SharedIsVisible(modules, full);
    }
  }

  lemma TwoClaims(a: Claim, b: Claim)
    requires a.full == b.full && a.stem != b.stem && b.mounted
    ensures a.full in ByPath([a, b]) && ByPath([a, b])[a.full].stem == b.stem
    ensures a.full in Duplicates([a, b])
  {
    assert [a] + [b] == [a, b] && [] + [a] == [a];
    OneMoreClaim([], a);
    OneMoreClaim([a], b);
    assert a in [a, b];
    DuplicateIff([a, b], a.full);
  }

  lemma TwoModules(m: Module, m': Module, d: Decl)
    requires m.decls == [] && m.appDecls == [d] && m'.decls == [d] && m'.appDecls == []
    ensures AllClaims([m, m']) == [Claim(FullPath(m, d), m.stem, m.mounted, m.prefix),
                                   Claim(FullPath(m', d), m'.stem, m'.mounted, m'.prefix)]
  {
    assert [m, m'][..1] == [m] && [m][..0] == [];
    assert m.decls + m.appDecls == [d] && m'.decls + m'.appDecls == [d];
    assert AllClaims([m]) == ClaimsOf(m, [d]);
  }

  /** With them it can fail: a mounted module (app/main.py) serves a path by an app decorator, a mounted router
      ingested later takes over the record, and nobody is told. */
  lemma AppDecoratorsHideDuplicates(d: Decl, app: string, router: string) returns (modules: seq<Module>)
    requires app != router
    ensures forall m | m in modules :: Scanned(m) && m.mounted
    ensures Duplicates(AllClaims(modules)) != {}
    ensures forall r: Routes | r.byPath == ByPath(AllClaims(modules)) :: NobodyReportsADuplicate(modules, r)
  {
    var server, owner := Module(app, true, None, [], [d], [], true), Module(router, true, None, [d], [], [], true);
    modules := [server, owner];
    TwoModules(server, owner, d);
    var claims := AllClaims(modules);
    TwoClaims(claims[0], claims[1]);
    forall r: Routes | r.byPath == ByPath(claims) ensures NobodyReportsADuplicate(modules, r) {
      BothSilent(server, owner, d, r);
    }
  }

  lemma BothSilent(m: Module, owner: Module, d: Decl, r: Routes)
    requires Scanned(m) && m.decls == [] && Scanned(owner) && owner.decls == [d]
    requires FullPath(owner, d) in r.byPath && r.byPath[FullPath(owner, d)].stem == owner.stem
    ensures NobodyReportsADuplicate([m, owner], r)
  {
    NothingToReport(m, r);
    SilentOwner(owner, d, r);
  }

  lemma NothingToReport(m: Module, r: Routes)
    requires Scanned(m) && m.decls == []
    ensures !ReportsDuplicate(m, r)
  {
    ReportsDuplicateIff(m, r);
  }

  lemma SilentOwner(m: Module, d: Decl, r: Routes)
    requires Scanned(m) && m.decls == [d]
    requires FullPath(m, d) in r.byPath && r.byPath[FullPath(m, d)].stem == m.stem
    ensures !ReportsDuplicate(m, r)
  {
    ReportsDuplicateIff(m, r);
  }

  // ----- prefixes -----

  ghost predicate ReportsCollision(m: Module, r: Routes) {
    exists v :: v in Lint(m, r) && v.PrefixCollision?
  }

  lemma {:induction false} OthersIff(stems: seq<string>, stem: string)
    ensures Others(stems, stem) != [] <==> exists s :: s in stems && s != stem
  {
    if stems != [] {
      var before, last := stems[..|stems| - 1], stems[|stems| - 1];
      OthersIff(before, stem);
      assert forall x :: x in stems <==> x in before || x == last by {
        assert stems == before + [last];
      }
      if last != stem {
        assert last in stems;
      } else if s :| s in stems && s != stem {
        assert s in before;
      }
    }
  }

  lemma {:induction false} PrefixOwnersAreTheClaimants(modules: seq<Module>, prefix: string)
    ensures prefix in PrefixOwners(modules) <==> exists m :: m in modules && m.prefix == Some(prefix)
    ensures prefix in PrefixOwners(modules) ==>
              forall s :: s in PrefixOwners(modules)[prefix]
                     <==> exists m :: m in modules && m.prefix == Some(prefix) && m.stem == s
  {
    if modules != [] {
      var modules', last := modules[..|modules| - 1], modules[|modules| - 1];
      PrefixOwnersAreTheClaimants(modules', prefix);
      assert modules == modules' + [last];
      assert forall x :: x in modules <==> x in modules' || x == last;
    }
  }

  lemma ReportsCollisionIff(m: Module, r: Routes)
    requires Scanned(m)
    ensures ReportsCollision(m, r)
       <==> m.prefix.Some? && Specific(m.prefix.value) && m.prefix.value in r.prefixOwners
            && Others(r.prefixOwners[m.prefix.value], m.stem) != []
  {
    RouteViolationsIff(m, m.decls, r.byPath);
    if m.prefix.Some? && Specific(m.prefix.value) && m.prefix.value in r.prefixOwners
       && Others(r.prefixOwners[m.prefix.value], m.stem) != []
    {
      assert PrefixCollision(m.prefix.value, Others(r.prefixOwners[m.prefix.value], m.stem)) in Lint(m, r);
    }
  }

  ghost predicate SharedSpecificPrefix(modules: seq<Module>) {
    exists m, m' :: m in modules && m' in modules && m.stem != m'.stem
                    && m.prefix.Some? && m.prefix == m'.prefix && Specific(m.prefix.value)
  }

  ghost predicate ClaimsPrefix(modules: seq<Module>, m: Module, prefix: string) {
    m in modules && m.prefix == Some(prefix)
  }

  /** The index lists a prefix exactly when two modules claim it. */
  lemma CollisionIff(modules: seq<Module>, prefix: string)
    ensures prefix in MultiplyOwned(PrefixOwners(modules))
       <==> exists m, m' :: ClaimsPrefix(modules, m, prefix) && ClaimsPrefix(modules, m', prefix) && m.stem != m'.stem
  {
    PrefixOwnersAreTheClaimants(modules, prefix);
    if prefix in PrefixOwners(modules) {
      var stems := PrefixOwners(modules)[prefix];
      var m :| m in modules && m.prefix == Some(prefix);
      assert m.stem in stems;
      MoreThanOne(Elems(stems), m.stem);
      if s :| s in Elems(stems) && s != m.stem {
        var m' :| m' in modules && m'.prefix == Some(prefix) && m'.stem == s;
        assert ClaimsPrefix(modules, m, prefix) && ClaimsPrefix(modules, m', prefix);
      }
      if x, y :| ClaimsPrefix(modules, x, prefix) && ClaimsPrefix(modules, y, prefix) && x.stem != y.stem {
        assert x.stem in Elems(stems) && y.stem in Elems(stems);
      }
    }
  }

  lemma ToldIsShared(modules: seq<Module>, m: Module, r: Routes)
    requires m in modules && Scanned(m) && r.prefixOwners == PrefixOwners(modules) && ReportsCollision(m, r)
    ensures SharedSpecificPrefix(modules)
  {
    ReportsCollisionIff(m, r);
    PrefixOwnersAreTheClaimants(modules, m.prefix.value);
    OthersIff(r.prefixOwners[m.prefix.value], m.stem);
  }

  lemma SharedIsTold(modules: seq<Module>, m: Module, m': Module, r: Routes)
    requires m in modules && m' in modules && m.stem != m'.stem && Scanned(m)
    requires m.prefix.Some? && m.prefix == m'.prefix && Specific(m.prefix.value)
    requires r.prefixOwners == PrefixOwners(modules)
    ensures ReportsCollision(m, r) && m.prefix.value in MultiplyOwned(PrefixOwners(modules))
  {
    var prefix := m.prefix.value;
    ReportsCollisionIff(m, r);
    PrefixOwnersAreTheClaimants(modules, prefix);
    OthersIff(r.prefixOwners[prefix], m.stem);
    assert m'.stem in r.prefixOwners[prefix];
    assert ClaimsPrefix(modules, m, prefix) && ClaimsPrefix(modules, m', prefix);
    CollisionIff(modules, prefix);
  }

  /** Somebody is told of a prefix collision exactly when two modules claim one specific prefix, which is when the
      index lists a specific one. */
  lemma CollisionsAgreeWithIndex(modules: seq<Module>, r: Routes)
    requires forall m | m in modules :: Scanned(m)
    requires r.prefixOwners == PrefixOwners(modules) && r.collisions == MultiplyOwned(PrefixOwners(modules))
    ensures (exists m :: m in modules && ReportsCollision(m, r)) <==> SharedSpecificPrefix(modules)
    ensures (exists p :: p in r.collisions && Specific(p)) <==> SharedSpecificPrefix(modules)
  {
    if m :| m in modules && ReportsCollision(m, r) {
      ToldIsShared(modules, m, r);
    }
    if SharedSpecificPrefix(modules) {
      var m, m' :| m in modules && m' in modules && m.stem != m'.stem
                   && m.prefix.Some? && m.prefix == m'.prefix && Specific(m.prefix.value);
      SharedIsTold(modules, m, m', r);
    }
    if p :| p in r.collisions && Specific(p) {
      CollisionIff(modules, p);
    }
  }

  // ----- what the linter says -----

  lemma {:induction false} RouteViolationsAre(m: Module, decls: seq<Decl>, byPath: map<string, Rec>, v: Violation)
    ensures v in RouteViolations(m, decls, byPath)
       <==> exists d :: d in decls && FullPath(m, d) in byPath && byPath[FullPath(m, d)].stem != m.stem
                        && v == DuplicateRoute(FullPath(m, d), byPath[FullPath(m, d)].stem,
                                               byPath[FullPath(m, d)].mounted)
  {
    if decls != [] {
      var before, d := decls[..|decls| - 1], decls[|decls| - 1];
      RouteViolationsAre(m, before, byPath, v);
      assert decls == before + [d];
      assert forall x :: x in decls <==> x in before || x == d;
    }
  }

  /** The violation names a path that another module owns, that owner, and whether it is mounted. */
  ghost predicate NamesTheOwner(modules: seq<Module>, m: Module, d: Decl, v: Violation) {
    var full := FullPath(m, d);
    && OwnedByAnother(modules, full, m)
    && v == DuplicateRoute(full, OwnerOf(modules, full).value.stem, OwnerOf(modules, full).value.mounted)
  }

  /** The linter tells a module of every path of its routers that another module owns, and names that owner; it misses
      a prefix exactly where there are router decorators and none; and of nothing else. */
  lemma LintSays(modules: seq<Module>, m: Module, r: Routes, v: Violation)
    requires Scanned(m) && r.byPath == ByPath(AllClaims(modules))
    ensures v.DuplicateRoute? ==> (v in Lint(m, r) <==> exists d :: d in m.decls && NamesTheOwner(modules, m, d, v))
    ensures v.NoPrefix? ==> (v in Lint(m, r) <==> m.decls != [] && m.prefix == None && v.count == |m.decls|)
  {
    RouteViolationsAre(m, m.decls, r.byPath, v);
    forall d | d in m.decls
      ensures NamesTheOwner(modules, m, d, v)
         <==> FullPath(m, d) in r.byPath && r.byPath[FullPath(m, d)].stem != m.stem
              && v == DuplicateRoute(FullPath(m, d), r.byPath[FullPath(m, d)].stem, r.byPath[FullPath(m, d)].mounted)
    {
      RecordIsTheOwners(modules, FullPath(m, d));
    }
  }

  /** It tells a module of a collision exactly when its prefix has two segments or more and another module claims it, */
  lemma ToldOfCollisionIff(modules: seq<Module>, m: Module, r: Routes)
    requires Scanned(m) && m in modules && r.prefixOwners == PrefixOwners(modules)
    ensures ReportsCollision(m, r)
       <==> m.prefix.Some? && |Segments(m.prefix.value)| >= 2
            && exists m' :: ClaimsPrefix(modules, m', m.prefix.value) && m'.stem != m.stem
  {
    ReportsCollisionIff(m, r);
    if m.prefix.Some? {
      var prefix := m.prefix.value;
      PrefixOwnersAreTheClaimants(modules, prefix);
      OthersIff(r.prefixOwners[prefix], m.stem);
      if s :| s in r.prefixOwners[prefix] && s != m.stem {
        var m' :| m' in modules && m'.prefix == Some(prefix) && m'.stem == s;
        assert ClaimsPrefix(modules, m', prefix);
      }
      if m' :| ClaimsPrefix(modules, m', prefix) && m'.stem != m.stem {
        assert m'.stem in r.prefixOwners[prefix];
      }
    }
  }

  /** ... and names all such modules. */
  lemma LintSaysOfPrefixes(modules: seq<Module>, m: Module, r: Routes, v: Violation, s: string)
    requires Scanned(m) && m in modules && r.prefixOwners == PrefixOwners(modules) && v.PrefixCollision?
    requires v in Lint(m, r)
    ensures m.prefix == Some(v.prefix) && |Segments(v.prefix)| >= 2 && v.others != []
    ensures s in v.others <==> s != m.stem && exists m' :: ClaimsPrefix(modules, m', v.prefix) && m'.stem == s
  {
    RouteViolationsIff(m, m.decls, r.byPath);
    PrefixOwnersAreTheClaimants(modules, v.prefix);
    OthersAreTheOthers(r.prefixOwners[v.prefix], m.stem, s);
    assert s in v.others <==> s in multiset(v.others);
    assert s in r.prefixOwners[v.prefix] <==> s in multiset(r.prefixOwners[v.prefix]);
    if m' :| ClaimsPrefix(modules, m', v.prefix) && m'.stem == s {
      assert s in r.prefixOwners[v.prefix];
    }
  }

  // ----- verbs and paths -----

  /** Every verb is one word, as the patterns see to. */
  ghost predicate VerbsAreWords(modules: seq<Module>) {
    forall m, d | m in modules && d in m.decls + m.appDecls :: ' ' !in d.verb
  }

  /** Some decorator of the module has the verb, and its path joined to the module's prefix is the path. */
  ghost predicate HasEndpoint(m: Module, verb: string, path: string) {
    exists d :: d in m.decls + m.appDecls && d.verb == verb
                && JoinPath(if m.prefix.Some? then m.prefix.value else "", d.path) == path
  }

  ghost predicate DeclaredByTwo(modules: seq<Module>, verb: string, path: string) {
    exists m, m' :: m in modules && m' in modules && m.stem != m'.stem
                    && HasEndpoint(m, verb, path) && HasEndpoint(m', verb, path)
  }

  /** What the modules declare, as pairs of a verb and a path. */
  ghost function Endpoints(modules: seq<Module>): set<(string, string)> {
    set m, d | m in modules && d in m.decls + m.appDecls ::
      (d.verb, JoinPath(if m.prefix.Some? then m.prefix.value else "", d.path))
  }

  lemma WordThenRest(v: string, p: string, w: string, q: string)
    requires ' ' !in v && ' ' !in w && v + " " + p == w + " " + q
    ensures v == w && p == q
  {
    PathPartOf(v, p);
    PathPartOf(w, q);
    assert |v + " " + p| == |w + " " + q|;
    assert (v + " " + p)[..|v|] == v && (w + " " + q)[..|w|] == w;
  }

  /** Two declarations are filed under one key exactly when they agree on the verb and on the joined path. */
  lemma FullPathIff(m: Module, d: Decl, m': Module, d': Decl)
    requires ' ' !in d.verb && ' ' !in d'.verb
    ensures FullPath(m, d) == FullPath(m', d')
       <==> d.verb == d'.verb && JoinPath(PrefixText(m), d.path) == JoinPath(PrefixText(m'), d'.path)
  {
    if FullPath(m, d) == FullPath(m', d') {
      WordThenRest(d.verb, JoinPath(PrefixText(m), d.path), d'.verb, JoinPath(PrefixText(m'), d'.path));
    }
  }

  lemma EndpointOf(m: Module, d: Decl, verb: string, path: string)
    requires ' ' !in d.verb && ' ' !in verb
    ensures FullPath(m, d) == verb + " " + path
       <==> d.verb == verb && JoinPath(if m.prefix.Some? then m.prefix.value else "", d.path) == path
  {
    if FullPath(m, d) == verb + " " + path {
      WordThenRest(d.verb, JoinPath(PrefixText(m), d.path), verb, path);
    }
  }

  lemma DeclaresIff(m: Module, verb: string, path: string)
    requires VerbsAreWords([m]) && ' ' !in verb
    ensures Declares(m, verb + " " + path) <==> HasEndpoint(m, verb, path)
  {
    var ds, full := m.decls + m.appDecls, verb + " " + path;
    var own := ClaimsOf(m, ds);
    forall d | d in ds ensures FullPath(m, d) == full
                          <==> d.verb == verb
                               && JoinPath(if m.prefix.Some? then m.prefix.value else "", d.path) == path {
      assert m in [m];
      EndpointOf(m, d, verb, path);
    }
    if Declares(m, full) {
      var c :| c in own && c.full == full;
      var i :| 0 <= i < |own| && own[i] == c;
      assert ds[i] in ds && FullPath(m, ds[i]) == full;
    }
    if HasEndpoint(m, verb, path) {
      var d :| d in ds && FullPath(m, d) == full;
      var i :| 0 <= i < |ds| && ds[i] == d;
      assert own[i] in own && own[i].full == full;
    }
  }

  /** A path is a duplicate exactly when two modules declare it under one verb. */
  lemma DuplicateEndpointIff(modules: seq<Module>, verb: string, path: string)
    requires VerbsAreWords(modules) && ' ' !in verb
    ensures verb + " " + path in Duplicates(AllClaims(modules)) <==> DeclaredByTwo(modules, verb, path)
  {
    DuplicatesAreShared(modules, verb + " " + path);
    forall m | m in modules ensures Declares(m, verb + " " + path) <==> HasEndpoint(m, verb, path) {
      DeclaresIff(m, verb, path);
    }
  }

  function KeyOf(e: (string, string)): string {
    e.0 + " " + e.1
  }

  lemma {:induction false} OneKeyEach(es: set<(string, string)>)
    requires forall e | e in es :: ' ' !in e.0
    ensures |set e | e in es :: KeyOf(e)| == |es|
  {
    if es != {} {
      var e :| e in es;
      var rest := es - {e};
      OneKeyEach(rest);
      var keys := set x | x in rest :: KeyOf(x);
      forall x | x in rest ensures KeyOf(x) != KeyOf(e) {
        if KeyOf(x) == KeyOf(e) {
          WordThenRest(x.0, x.1, e.0, e.1);
        }
      }
      assert (set x | x in es :: KeyOf(x)) == keys + {KeyOf(e)};
    }
  }

  /** There are as many records as there are pairs of a verb and a path: a GET and a POST of one path are two. */
  lemma OneRecordPerEndpoint(modules: seq<Module>)
    requires VerbsAreWords(modules)
    ensures |ByPath(AllClaims(modules))| == |Endpoints(modules)|
  {
    var es := Endpoints(modules);
    var keys := set e | e in es :: KeyOf(e);
    OneKeyEach(es);
    ClaimsComeFromModules(modules);
    forall full ensures full in ByPath(AllClaims(modules)) <==> full in keys {
      OwnerIsADeclarer(AllClaims(modules), full);
      RecordedKey(modules, full);
    }
    assert ByPath(AllClaims(modules)).Keys == keys;
  }

  lemma RecordedKey(modules: seq<Module>, full: string)
    ensures Claimed(AllClaims(modules), full) <==> full in set e | e in Endpoints(modules) :: KeyOf(e)
  {
    ClaimsComeFromModules(modules);
    if c :| c in AllClaims(modules) && c.full == full {
      var m, d :| m in modules && d in m.decls + m.appDecls
                  && c == Claim(FullPath(m, d), m.stem, m.mounted, m.prefix);
      var e := (d.verb, JoinPath(PrefixText(m), d.path));
      assert e in Endpoints(modules) && KeyOf(e) == full;
    }
    if e :| e in Endpoints(modules) && KeyOf(e) == full {
      var m, d :| m in modules && d in m.decls + m.appDecls
                  && e == (d.verb, JoinPath(if m.prefix.Some? then m.prefix.value else "", d.path));
      var c := Claim(FullPath(m, d), m.stem, m.mounted, m.prefix);
      assert c in AllClaims(modules) && c.full == full;
    }
  }

  // ----- what the front end calls -----

  /** p.split(" ", 1)[1]. */
  function PathPart(full: string): string {
    if full == "" then "" else if full[0] == ' ' then full[1..] else PathPart(full[1..])
  }

  lemma {:induction false} PathPartOf(verb: string, path: string)
    requires ' ' !in verb
    ensures PathPart(verb + " " + path) == path
  {
    var full := verb + " " + path;
    if verb == "" {
      assert full[1..] == path;
    } else {
      PathPartOf(verb[1..], path);
      assert full[1..] == verb[1..] + " " + path;
    }
  }

  function Stems(paths: set<string>): set<string> {
    set p | p in paths :: StaticStem(PathPart(p))
  }

  /** called_but_no_route_anywhere */
  function Unserved(called: set<string>, byPath: map<string, Rec>): set<string> {
    set u | u in called && StaticStem(u) !in Stems(byPath.Keys)
  }

  /** shell_calls_hitting_no_LIVE_route */
  function Dead(shell: set<string>, byPath: map<string, Rec>): set<string> {
    set u | u in shell && StaticStem(u) !in Stems(Mounted(byPath))
  }

  /** Some declaration, of a mounted module if `live`, has the same leading static segments as the URL. */
  ghost predicate ServedBySome(modules: seq<Module>, url: string, live: bool) {
    exists m, d :: m in modules && d in m.decls + m.appDecls && (live ==> m.mounted)
                   && Static(Segments(PrefixText(m)) + Segments(d.path)) == Static(Segments(url))
  }

  lemma ClaimStem(m: Module, d: Decl, url: string)
    requires ' ' !in d.verb
    ensures StaticStem(PathPart(FullPath(m, d))) == StaticStem(url)
       <==> Static(Segments(PrefixText(m)) + Segments(d.path)) == Static(Segments(url))
  {
    PathPartOf(d.verb, JoinPath(PrefixText(m), d.path));
    JoinPathSegments(PrefixText(m), d.path);
    SameStemIff(JoinPath(PrefixText(m), d.path), url);
  }

  function Serving(byPath: map<string, Rec>, live: bool): set<string> {
    if live then Mounted(byPath) else byPath.Keys
  }

  lemma DeclaredIsServed(modules: seq<Module>, m: Module, d: Decl, url: string, live: bool)
    requires m in modules && d in m.decls + m.appDecls && (live ==> m.mounted) && ' ' !in d.verb
    requires Static(Segments(PrefixText(m)) + Segments(d.path)) == Static(Segments(url))
    ensures StaticStem(url) in Stems(Serving(ByPath(AllClaims(modules)), live))
  {
    ClaimsComeFromModules(modules);
    ClaimStem(m, d, url);
    var c := Claim(FullPath(m, d), m.stem, m.mounted, m.prefix);
    assert c in AllClaims(modules) && c.full == FullPath(m, d);
    OwnerIsADeclarer(AllClaims(modules), c.full);
    assert live ==> ClaimedMounted(AllClaims(modules), c.full);
    assert c.full in Serving(ByPath(AllClaims(modules)), live);
  }

  lemma ServedIsDeclared(modules: seq<Module>, p: string, url: string, live: bool)
    requires VerbsAreWords(modules)
    requires p in Serving(ByPath(AllClaims(modules)), live) && StaticStem(PathPart(p)) == StaticStem(url)
    ensures ServedBySome(modules, url, live)
  {
    ClaimsComeFromModules(modules);
    OwnerIsADeclarer(AllClaims(modules), p);
    var c :| c in AllClaims(modules) && c.full == p && (live ==> c.mounted);
    var m, d :| m in modules && d in m.decls + m.appDecls
                && c == Claim(FullPath(m, d), m.stem, m.mounted, m.prefix);
    ClaimStem(m, d, url);
  }

  /** The index knows of a route with the URL's static segments exactly when some declaration has them. */
  lemma IndexServes(modules: seq<Module>, url: string, live: bool)
    requires VerbsAreWords(modules)
    ensures StaticStem(url) in Stems(Serving(ByPath(AllClaims(modules)), live)) <==> ServedBySome(modules, url, live)
  {
    if ServedBySome(modules, url, live) {
      var m, d :| m in modules && d in m.decls + m.appDecls && (live ==> m.mounted)
                  && Static(Segments(PrefixText(m)) + Segments(d.path)) == Static(Segments(url));
      DeclaredIsServed(modules, m, d, url, live);
    }
    if p :| p in Serving(ByPath(AllClaims(modules)), live) && StaticStem(PathPart(p)) == StaticStem(url) {
      ServedIsDeclared(modules, p, url, live);
    }
  }

  /** A called URL is listed as having no route anywhere exactly when no module declares its static segments,
      a shell call as hitting nothing live exactly when no mounted module does; so a shell call on the first
      list is on the second. */
  lemma CallReports(modules: seq<Module>, shell: set<string>, views: set<string>, url: string)
    requires VerbsAreWords(modules)
    ensures var b := ByPath(AllClaims(modules));
            && (url in Unserved(shell + views, b) <==> url in shell + views && !ServedBySome(modules, url, false))
            && (url in Dead(shell, b) <==> url in shell && !ServedBySome(modules, url, true))
            && (url in shell && url in Unserved(shell + views, b) ==> url in Dead(shell, b))
  {
    IndexServes(modules, url, false);
    IndexServes(modules, url, true);
    if ServedBySome(modules, url, true) {
      var m, d :| m in modules && d in m.decls + m.appDecls && m.mounted
                  && Static(Segments(PrefixText(m)) + Segments(d.path)) == Static(Segments(url));
      assert ServedBySome(modules, url, false);
    }
  }

  // ----- the budget of the injected block -----

  const SUFFIX := "\n  ... (truncated to context budget)"

  /** Python's s[:n], for n of either sign. */
  function Prefix(s: string, n: int): string {
    if n >= |s| then s else if n >= 0 then s[..n] else if -n >= |s| then "" else s[..|s| + n]
  }

  /** It is a prefix, of n characters or, for negative n, of all but -n, as far as there are so many. */
  lemma PrefixIs(s: string, n: int)
    ensures Prefix(s, n) <= s
    ensures |Prefix(s, n)| == if n > |s| then |s| else if n >= 0 then n else if |s| + n > 0 then |s| + n else 0
  {
  }

  /** Everything before the last newline, or the whole string. */
  function BeforeLastNewline(s: string): string {
    if '\n' !in s then s else if s[|s| - 1] == '\n' then s[..|s| - 1] else BeforeLastNewline(s[..|s| - 1])
  }

  /** `render_for_architect` lines 505-508. */
  function Truncated(out: string, budget: int): string {
    if |out| > budget then BeforeLastNewline(Prefix(out, budget - 40)) + SUFFIX else out
  }

  lemma {:induction false} NewlineIsDropped(s: string)
    requires '\n' in s
    ensures |BeforeLastNewline(s)| < |s|
  {
    if s[|s| - 1] != '\n' {
      assert s == s[..|s| - 1] + [s[|s| - 1]];
      NewlineIsDropped(s[..|s| - 1]);
    }
  }

  lemma {:induction false} BeforeLastNewlineIsPrefix(s: string)
    ensures var b := BeforeLastNewline(s); |b| <= |s| && b == s[..|b|]
    ensures var b := BeforeLastNewline(s); b == s || (|b| < |s| && s[|b|] == '\n')
  {
    if '\n' in s && s[|s| - 1] != '\n' {
      assert s == s[..|s| - 1] + [s[|s| - 1]];
      BeforeLastNewlineIsPrefix(s[..|s| - 1]);
      NewlineIsDropped(s[..|s| - 1]);
    }
  }

  /** A budget of at least 40 is kept, and what is kept of the block is whole lines of it (or its head,
      when that has no line break). */
  lemma BudgetIsKept(out: string, budget: int)
    requires budget >= 40
    ensures |Truncated(out, budget)| <= budget
    ensures |out| <= budget ==> Truncated(out, budget) == out
    ensures |out| > budget ==>
              exists k | 0 <= k <= budget - 40 :: Truncated(out, budget) == out[..k] + SUFFIX
                                                  && (out[k] == '\n' || (k == budget - 40 && '\n' !in out[..k]))
  {
    if |out| > budget {
      var head := Prefix(out, budget - 40);
      BeforeLastNewlineIsPrefix(head);
      var k := |BeforeLastNewline(head)|;
      assert head[..k] == out[..k];
      if k == |head| && '\n' in head {
        NewlineIsDropped(head);
      }
    }
  }

  function Blanks(n: nat): (s: string)
    ensures |s| == n && '\n' !in s
  {
    if n == 0 then "" else Blanks(n - 1) + " "
  }

  /** Exactly the budgets from 40 on are kept for every block. */
  lemma BudgetKeptIff(budget: int)
    ensures (forall out: string :: |Truncated(out, budget)| <= budget) <==> budget >= 40
  {
    if budget >= 40 {
      forall out: string ensures |Truncated(out, budget)| <= budget {
        BudgetIsKept(out, budget);
      }
    } else {
      var out := Blanks(100);
      var head := Prefix(out, budget - 40);
      BeforeLastNewlineIsPrefix(head);
      assert '\n' !in head;
      assert |Truncated(out, budget)| > budget;
    }
  }
}
