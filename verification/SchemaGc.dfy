/** Removing default error schemas nothing refers to any more, in waves. */
module SchemaGc {
  import opened Text

  /** The strings written anywhere in a part of the document. */
  type Part = set<string>

  const REFERENCE := "#/components/schemas/"

  /** A reference to a name is found by its text, so a longer name that begins with it counts too. */
  predicate Mentions(part: Part, name: string) {
    exists s :: s in part && Contains(s, REFERENCE + name)
  }

  /** What is searched besides the schemas: every other top-level part, and the shared responses. */
  datatype Roots = Roots(others: Part, responses: Part)

  type Schemas = map<string, Part>

  predicate RootMentions(roots: Roots, name: string) {
    Mentions(roots.others, name) || Mentions(roots.responses, name)
  }

  /** Something other than the schema itself refers to it, `alive` being the schemas left. */
  predicate Mentioned(roots: Roots, schemas: Schemas, alive: set<string>, name: string) {
    RootMentions(roots, name) || exists k :: k in alive && k in schemas && k != name && Mentions(schemas[k], name)
  }

  /** A choice of schemas that keeps every non-candidate, and no candidate without a reference. */
  ghost predicate Supported(roots: Roots, schemas: Schemas, candidates: set<string>, alive: set<string>) {
    && alive <= schemas.Keys
    && schemas.Keys - candidates <= alive
    && forall name :: name in alive && name in candidates ==> Mentioned(roots, schemas, alive, name)
  }

  ghost predicate Greatest(roots: Roots, schemas: Schemas, candidates: set<string>, alive: set<string>) {
    && Supported(roots, schemas, candidates, alive)
    && forall other :: Supported(roots, schemas, candidates, other) ==> other <= alive
  }

  function Restricted(schemas: Schemas, alive: set<string>): Schemas {
    map k | k in schemas && k in alive :: schemas[k]
  }

  lemma MentionedGrows(roots: Roots, schemas: Schemas, fewer: set<string>, more: set<string>, name: string)
    requires fewer <= more && Mentioned(roots, schemas, fewer, name)
    ensures Mentioned(roots, schemas, more, name)
  {
  }

  /** Among the schemas still there, being mentioned is being mentioned in the document. */
  lemma MentionedInRest(roots: Roots, schemas: Schemas, alive: set<string>, name: string)
    ensures Mentioned(roots, Restricted(schemas, alive), alive, name) == Mentioned(roots, schemas, alive, name)
  {
    var rest := Restricted(schemas, alive);
    if Mentioned(roots, schemas, alive, name) && !RootMentions(roots, name) {
      var k :| k in alive && k in schemas && k != name && Mentions(schemas[k], name);
      assert k in rest && rest[k] == schemas[k];
    }
  }

  /** The string refers to the name and stands in another top-level part, a shared response, or another schema. */
  ghost predicate Refers(roots: Roots, schemas: Schemas, name: string, s: string) {
    && Contains(s, "#/components/schemas/" + name)
    && (s in roots.others || s in roots.responses || exists k :: k in schemas && k != name && s in schemas[k])
  }

  lemma MentionedByAString(roots: Roots, schemas: Schemas, name: string)
    ensures Mentioned(roots, schemas, schemas.Keys, name) <==> exists s :: Refers(roots, schemas, name, s)
  {
    if Mentions(roots.others, name) {
      var s :| s in roots.others && Contains(s, REFERENCE + name);
      assert Refers(roots, schemas, name, s);
    } else if Mentions(roots.responses, name) {
      var s :| s in roots.responses && Contains(s, REFERENCE + name);
      assert Refers(roots, schemas, name, s);
    } else if Mentioned(roots, schemas, schemas.Keys, name) {
      var k :| k in schemas && k != name && Mentions(schemas[k], name);
      var s :| s in schemas[k] && Contains(s, REFERENCE + name);
      assert Refers(roots, schemas, name, s);
    }
  }

  class Document {
    const roots: Roots
    var schemas: Schemas

    constructor (roots: Roots, schemas: Schemas)
      ensures this.roots == roots && this.schemas == schemas
    {
      this.roots := roots;
      this.schemas := schemas;
    }

    /**
      One wave, in whatever order: candidates nothing refers to are removed at once.
      Without a removal, every candidate left is referred to.
     */
    method Wave(candidates: set<string>, ghost given: Schemas) returns (changed: bool)
      requires schemas.Keys <= given.Keys && schemas == Restricted(given, schemas.Keys)
      requires given.Keys - candidates <= schemas.Keys
      requires forall other :: Supported(roots, given, candidates, other) ==> other <= schemas.Keys
      modifies this
      ensures schemas.Keys <= old(schemas.Keys) && schemas == Restricted(given, schemas.Keys)
      ensures given.Keys - candidates <= schemas.Keys
      ensures forall other :: Supported(roots, given, candidates, other) ==> other <= schemas.Keys
      ensures forall name :: name in old(schemas.Keys) - schemas.Keys ==> !Mentioned(roots, given, schemas.Keys, name)
      ensures changed ==> schemas.Keys < old(schemas.Keys)
      ensures !changed ==> schemas == old(schemas) && Supported(roots, given, candidates, schemas.Keys)
    {
      changed := false;
      var todo := candidates * schemas.Keys;
      while todo != {}
        invariant todo <= candidates
        invariant schemas.Keys <= old(schemas.Keys) && schemas == Restricted(given, schemas.Keys)
        invariant given.Keys - candidates <= schemas.Keys
        invariant forall other :: Supported(roots, given, candidates, other) ==> other <= schemas.Keys
        invariant forall name :: name in old(schemas.Keys) - schemas.Keys ==> !Mentioned(roots, given, schemas.Keys, name)
        invariant changed ==> schemas.Keys < old(schemas.Keys)
        invariant !changed ==> schemas == old(schemas)
        invariant !changed ==> forall name :: name in schemas && name in candidates && name !in todo ==>
                                 Mentioned(roots, given, schemas.Keys, name)
        decreases |todo|
      {
        var name :| name in todo;
        todo := todo - {name};
        MentionedInRest(roots, given, schemas.Keys, name);
        if name in schemas && !Mentioned(roots, schemas, schemas.Keys, name) {
          RemovalIsForced(roots, given, candidates, schemas.Keys, name);
          RemovedStayUnmentioned(roots, given, old(schemas.Keys), schemas.Keys, name);
          schemas := schemas - {name};
          changed := true;
        }
      }
    }

    /** `_drop_unreferenced`: waves until one changes nothing. */
    method DropUnreferenced(candidates: set<string>)
      modifies this
      ensures Greatest(roots, old(schemas), candidates, schemas.Keys)
      ensures schemas == Restricted(old(schemas), schemas.Keys)
      ensures forall name :: name in old(schemas.Keys) - schemas.Keys ==>
                !Mentioned(roots, schemas, schemas.Keys, name)
      ensures forall name, s :: name in old(schemas.Keys) - schemas.Keys ==> !Refers(roots, schemas, name, s)
      ensures forall name :: name in schemas && name in candidates ==> exists s :: Refers(roots, schemas, name, s)
    {
      ghost var given := schemas;
      assert schemas == Restricted(given, schemas.Keys);
      var changed := true;
      while changed
        invariant schemas.Keys <= given.Keys && schemas == Restricted(given, schemas.Keys)
        invariant given.Keys - candidates <= schemas.Keys
        invariant forall other :: Supported(roots, given, candidates, other) ==> other <= schemas.Keys
        invariant forall name :: name in given.Keys - schemas.Keys ==> !Mentioned(roots, given, schemas.Keys, name)
        invariant !changed ==> Supported(roots, given, candidates, schemas.Keys)
        decreases schemas.Keys, changed
      {
        ghost var before := schemas.Keys;
        changed := Wave(candidates, given);
        forall name | name in given.Keys - before ensures !Mentioned(roots, given, schemas.Keys, name) {
          if Mentioned(roots, given, schemas.Keys, name) {
            MentionedGrows(roots, given, schemas.Keys, before, name);
          }
        }
      }
      forall name | name in given.Keys - schemas.Keys ensures !Mentioned(roots, schemas, schemas.Keys, name) {
        MentionedInRest(roots, given, schemas.Keys, name);
      }
      forall name | name in given.Keys - schemas.Keys ensures forall s :: !Refers(roots, schemas, name, s) {
        MentionedByAString(roots, schemas, name);
      }
      forall name | name in schemas && name in candidates ensures exists s :: Refers(roots, schemas, name, s) {
        MentionedInRest(roots, given, schemas.Keys, name);
        MentionedByAString(roots, schemas, name);
      }
    }
  }

  /** A schema nothing left refers to is in no supported choice among those left. */
  lemma RemovalIsForced(roots: Roots, given: Schemas, candidates: set<string>, alive: set<string>, name: string)
    requires name in candidates && !Mentioned(roots, given, alive, name)
    requires forall other :: Supported(roots, given, candidates, other) ==> other <= alive
    ensures forall other :: Supported(roots, given, candidates, other) ==> other <= alive - {name}
  {
    forall other | Supported(roots, given, candidates, other) ensures other <= alive - {name} {
      if name in other {
        MentionedGrows(roots, given, other, alive, name);
      }
    }
  }

  lemma RemovedStayUnmentioned(roots: Roots, given: Schemas, first: set<string>, alive: set<string>, name: string)
    requires !Mentioned(roots, given, alive, name)
    requires forall n :: n in first - alive ==> !Mentioned(roots, given, alive, n)
    ensures forall n :: n in first - (alive - {name}) ==> !Mentioned(roots, given, alive - {name}, n)
  {
    forall n | n in first - (alive - {name}) ensures !Mentioned(roots, given, alive - {name}, n) {
      if Mentioned(roots, given, alive - {name}, n) {
        MentionedGrows(roots, given, alive - {name}, alive, n);
      }
    }
  }

  // ---- what is left ----

  /** The order in which a wave visits its candidates cannot matter: there is one greatest choice. */
  lemma OrderDoesNotMatter(roots: Roots, schemas: Schemas, candidates: set<string>, a: set<string>, b: set<string>)
    requires Greatest(roots, schemas, candidates, a) && Greatest(roots, schemas, candidates, b)
    ensures a == b
  {
  }

  /** Each name is referred to by the one before it. */
  ghost predicate Linked(schemas: Schemas, chain: seq<string>) {
    && chain != [] && (forall i :: 0 <= i < |chain| ==> chain[i] in schemas)
    && forall i :: 0 < i < |chain| ==> chain[i - 1] != chain[i] && Mentions(schemas[chain[i - 1]], chain[i])
  }

  /** A name that needs no candidate's support. */
  predicate Rooted(roots: Roots, candidates: set<string>, name: string) {
    name !in candidates || RootMentions(roots, name)
  }

  /** A chain of references from outside the candidates. */
  ghost predicate Chain(roots: Roots, schemas: Schemas, candidates: set<string>, chain: seq<string>) {
    Linked(schemas, chain) && Rooted(roots, candidates, chain[0])
  }

  ghost predicate Reached(roots: Roots, schemas: Schemas, candidates: set<string>, name: string) {
    exists chain: seq<string> :: Chain(roots, schemas, candidates, chain) && chain[|chain| - 1] == name
  }

  /** Whatever is reached from outside the candidates is kept. */
  lemma {:induction false} ReachedIsKept(
      roots: Roots, schemas: Schemas, candidates: set<string>, alive: set<string>, chain: seq<string>)
    requires Greatest(roots, schemas, candidates, alive) && Chain(roots, schemas, candidates, chain)
    ensures chain[|chain| - 1] in alive
  {
    var n := |chain| - 1;
    var name := chain[n];
    if n > 0 {
      ReachedIsKept(roots, schemas, candidates, alive, chain[..n]);
    }
    var more := alive + {name};
    forall k | k in more && k in candidates ensures Mentioned(roots, schemas, more, k) {
      if k == name && n > 0 {
        assert Mentions(schemas[chain[n - 1]], name);
      } else if k in alive {
        MentionedGrows(roots, schemas, alive, more, k);
      }
    }
    assert Supported(roots, schemas, candidates, more);
  }

  /** References between candidates go up a ranking: there are no cycles among them. */
  ghost predicate Ranked(schemas: Schemas, candidates: set<string>, rank: map<string, nat>) {
    && candidates <= rank.Keys
    && forall a, b :: a in schemas && a in candidates && b in candidates && a != b && Mentions(schemas[a], b) ==>
                        rank[a] < rank[b]
  }

  lemma ChainGrows(roots: Roots, schemas: Schemas, candidates: set<string>, chain: seq<string>, name: string)
    requires Chain(roots, schemas, candidates, chain) && name in schemas
    requires chain[|chain| - 1] != name && Mentions(schemas[chain[|chain| - 1]], name)
    ensures Chain(roots, schemas, candidates, chain + [name])
  {
    var longer := chain + [name];
    forall i | 0 < i < |longer|
      ensures longer[i - 1] != longer[i] && Mentions(schemas[longer[i - 1]], longer[i])
    {
      assert longer[i - 1] == chain[i - 1];
      if i < |chain| {
        assert longer[i] == chain[i];
      }
    }
  }

  lemma {:induction false} KeptIsReachedAt(
      roots: Roots, schemas: Schemas, candidates: set<string>, alive: set<string>, rank: map<string, nat>, name: string)
    requires Supported(roots, schemas, candidates, alive) && Ranked(schemas, candidates, rank) && name in alive
    ensures Reached(roots, schemas, candidates, name)
    decreases if name in candidates then rank[name] + 1 else 0
  {
    if name !in candidates || RootMentions(roots, name) {
      assert Chain(roots, schemas, candidates, [name]);
      assert [name][|[name]| - 1] == name;
    } else {
      var k :| k in alive && k in schemas && k != name && Mentions(schemas[k], name);
      KeptIsReachedAt(roots, schemas, candidates, alive, rank, k);
      var chain: seq<string> :| Chain(roots, schemas, candidates, chain) && chain[|chain| - 1] == k;
      ChainGrows(roots, schemas, candidates, chain, name);
      assert (chain + [name])[|chain + [name]| - 1] == name;
    }
  }

  /** Without cycles among the candidates, what is kept is exactly what is reached. */
  lemma AcyclicKeepsExactlyReached(
      roots: Roots, schemas: Schemas, candidates: set<string>, alive: set<string>, rank: map<string, nat>, name: string)
    requires Greatest(roots, schemas, candidates, alive) && Ranked(schemas, candidates, rank)
    ensures name in alive <==> Reached(roots, schemas, candidates, name)
  {
    if name in alive {
      KeptIsReachedAt(roots, schemas, candidates, alive, rank, name);
    }
    if Reached(roots, schemas, candidates, name) {
      var chain: seq<string> :| Chain(roots, schemas, candidates, chain) && chain[|chain| - 1] == name;
      ReachedIsKept(roots, schemas, candidates, alive, chain);
    }
  }

  /** With a cycle, candidates keep each other though nothing reaches them. */
  lemma CycleIsKept(roots: Roots, schemas: Schemas, candidates: set<string>, alive: set<string>, a: string, b: string)
    requires Greatest(roots, schemas, candidates, alive)
    requires a in schemas && b in schemas && a != b && Mentions(schemas[a], b) && Mentions(schemas[b], a)
    ensures a in alive && b in alive
  {
    var more := alive + {a, b};
    forall k | k in more && k in candidates ensures Mentioned(roots, schemas, more, k) {
      if k in alive {
        MentionedGrows(roots, schemas, alive, more, k);
      }
    }
    assert Supported(roots, schemas, candidates, more);
  }

  // ---- exactly what is kept ----

  /** A chain whose first name comes round again. */
  ghost predicate Circling(schemas: Schemas, chain: seq<string>) {
    Linked(schemas, chain) && exists j :: 0 < j < |chain| && chain[j] == chain[0]
  }

  /** On a cycle of references, or led to from one. */
  ghost predicate OutOfCycle(schemas: Schemas, name: string) {
    exists chain: seq<string> :: Circling(schemas, chain) && chain[|chain| - 1] == name
  }

  lemma LinkedAfter(schemas: Schemas, first: string, chain: seq<string>)
    requires Linked(schemas, chain) && first in schemas && first != chain[0] && Mentions(schemas[first], chain[0])
    ensures Linked(schemas, [first] + chain)
  {
    var longer := [first] + chain;
    forall i | 0 < i < |longer|
      ensures longer[i - 1] != longer[i] && Mentions(schemas[longer[i - 1]], longer[i])
    {
      assert longer[i] == chain[i - 1];
      if i > 1 {
        assert longer[i - 1] == chain[i - 2];
      }
    }
  }

  lemma LinkedSuffix(schemas: Schemas, chain: seq<string>, i: nat)
    requires Linked(schemas, chain) && i < |chain|
    ensures Linked(schemas, chain[i..])
  {
    var rest := chain[i..];
    forall k | 0 < k < |rest| ensures rest[k - 1] != rest[k] && Mentions(schemas[rest[k - 1]], rest[k]) {
      assert rest[k] == chain[i + k] && rest[k - 1] == chain[i + k - 1];
    }
  }

  /** Everything on a chain out of a cycle is kept: each name of it supports the next. */
  lemma CirclingIsKept(roots: Roots, schemas: Schemas, candidates: set<string>, alive: set<string>, chain: seq<string>)
    requires Greatest(roots, schemas, candidates, alive) && Circling(schemas, chain)
    ensures chain[|chain| - 1] in alive
  {
    var names := set i | 0 <= i < |chain| :: chain[i];
    var more := alive + names;
    var j :| 0 < j < |chain| && chain[j] == chain[0];
    forall k | k in more && k in candidates ensures Mentioned(roots, schemas, more, k) {
      if k in names {
        var i :| 0 <= i < |chain| && chain[i] == k;
        var at := if i == 0 then j else i;
        assert chain[at - 1] in names;
      } else {
        MentionedGrows(roots, schemas, alive, more, k);
      }
    }
    assert Supported(roots, schemas, candidates, more);
    assert chain[|chain| - 1] in names;
  }

  /** Whatever is kept can be followed back for `n` references, or to a start. */
  lemma {:induction false} FollowedBack(
      roots: Roots, schemas: Schemas, candidates: set<string>, alive: set<string>, name: string, n: nat)
    returns (chain: seq<string>)
    requires Supported(roots, schemas, candidates, alive) && name in alive
    ensures Linked(schemas, chain) && chain[|chain| - 1] == name && forall i :: 0 <= i < |chain| ==> chain[i] in alive
    ensures Rooted(roots, candidates, chain[0]) || |chain| == n + 1
  {
    if n == 0 {
      chain := [name];
    } else {
      chain := FollowedBack(roots, schemas, candidates, alive, name, n - 1);
      if !Rooted(roots, candidates, chain[0]) {
        var k :| k in alive && k in schemas && k != chain[0] && Mentions(schemas[k], chain[0]);
        LinkedAfter(schemas, k, chain);
        chain := [k] + chain;
      }
    }
  }

  lemma {:induction false} SomethingRepeats(chain: seq<string>, among: set<string>) returns (i: nat, j: nat)
    requires |chain| > |among| && forall k :: 0 <= k < |chain| ==> chain[k] in among
    ensures i < j < |chain| && chain[i] == chain[j]
    decreases |among|
  {
    var n := |chain| - 1;
    if k :| 0 <= k < n && chain[k] == chain[n] {
      i, j := k, n;
    } else {
      var fewer := among - {chain[n]};
      forall k | 0 <= k < n ensures chain[..n][k] in fewer {
        assert chain[k] != chain[n];
      }
      i, j := SomethingRepeats(chain[..n], fewer);
    }
  }

  lemma KeptIsAccountedFor(roots: Roots, schemas: Schemas, candidates: set<string>, alive: set<string>, name: string)
    requires Supported(roots, schemas, candidates, alive) && name in alive
    ensures Reached(roots, schemas, candidates, name) || OutOfCycle(schemas, name)
  {
    var chain := FollowedBack(roots, schemas, candidates, alive, name, |alive|);
    if Rooted(roots, candidates, chain[0]) {
      assert Chain(roots, schemas, candidates, chain);
    } else {
      var i, j := SomethingRepeats(chain, alive);
      var round := chain[i..];
      LinkedSuffix(schemas, chain, i);
      assert round[j - i] == round[0];
      assert Circling(schemas, round) && round[|round| - 1] == name;
    }
  }

  /**
    What is kept is exactly what a chain of references leads to from outside the
    candidates, or from a cycle.
   */
  lemma KeptExactly(roots: Roots, schemas: Schemas, candidates: set<string>, alive: set<string>, name: string)
    requires Greatest(roots, schemas, candidates, alive) && name in schemas
    ensures name in alive <==> Reached(roots, schemas, candidates, name) || OutOfCycle(schemas, name)
  {
    if name in alive {
      KeptIsAccountedFor(roots, schemas, candidates, alive, name);
    }
    if Reached(roots, schemas, candidates, name) {
      var chain: seq<string> :| Chain(roots, schemas, candidates, chain) && chain[|chain| - 1] == name;
      ReachedIsKept(roots, schemas, candidates, alive, chain);
    }
    if OutOfCycle(schemas, name) {
      var chain: seq<string> :| Circling(schemas, chain) && chain[|chain| - 1] == name;
      CirclingIsKept(roots, schemas, candidates, alive, chain);
    }
  }

  lemma {:induction false} ContainsShorter(s: string, longer: string, shorter: string)
    requires Contains(s, longer) && shorter <= longer
    ensures Contains(s, shorter)
  {
    if !(longer <= s) {
      ContainsShorter(s[1..], longer, shorter);
    }
  }

  /** A reference to a longer name keeps every candidate whose name it begins with. */
  lemma LongerNameKeepsShorter(
      roots: Roots, schemas: Schemas, candidates: set<string>, alive: set<string>, longer: string, name: string)
    requires Greatest(roots, schemas, candidates, alive)
    requires name in schemas && name <= longer && RootMentions(roots, longer)
    ensures name in alive
  {
    assert REFERENCE + name <= REFERENCE + longer;
    forall s | Contains(s, REFERENCE + longer) ensures Contains(s, REFERENCE + name) {
      ContainsShorter(s, REFERENCE + longer, REFERENCE + name);
    }
    assert RootMentions(roots, name);
    var chain := [name];
    assert chain[|chain| - 1] == name;
    ReachedIsKept(roots, schemas, candidates, alive, chain);
  }

  /** A part of the document, all of it: the roots, the schemas left, and sections that are not searched. */
  predicate DocumentMentions(roots: Roots, schemas: Schemas, unsearched: Part, name: string) {
    RootMentions(roots, name) || Mentions(unsearched, name) || exists k :: k in schemas && Mentions(schemas[k], name)
  }

  lemma RemovedIsUnmentioned(roots: Roots, schemas: Schemas, candidates: set<string>, alive: set<string>, name: string)
    requires Greatest(roots, schemas, candidates, alive) && name in schemas.Keys - alive
    ensures !Mentioned(roots, schemas, alive, name)
  {
    if Mentioned(roots, schemas, alive, name) {
      var more := alive + {name};
      forall k | k in more && k in candidates ensures Mentioned(roots, schemas, more, k) {
        MentionedGrows(roots, schemas, alive, more, k);
      }
      assert Supported(roots, schemas, candidates, more);
    }
  }

  lemma OnlyUnsearchedMentions(
      roots: Roots, schemas: Schemas, candidates: set<string>, alive: set<string>, unsearched: Part, name: string)
    requires Greatest(roots, schemas, candidates, alive) && name in schemas.Keys - alive
    ensures DocumentMentions(roots, Restricted(schemas, alive), unsearched, name) <==> Mentions(unsearched, name)
  {
    var rest := Restricted(schemas, alive);
    RemovedIsUnmentioned(roots, schemas, candidates, alive, name);
    forall k | k in rest ensures !Mentions(rest[k], name) {
      assert k in alive && k in schemas && k != name;
    }
  }

  /**
    The document that is left refers to a removed name exactly when a section that is not
    searched refers to a candidate that neither a chain from outside the candidates nor a
    chain out of a cycle reaches.
   */
  lemma ClosedExactly(
      roots: Roots, schemas: Schemas, candidates: set<string>, alive: set<string>, unsearched: Part)
    requires Greatest(roots, schemas, candidates, alive)
    ensures (exists name :: name in schemas.Keys - alive
                            && DocumentMentions(roots, Restricted(schemas, alive), unsearched, name))
            <==> exists name :: name in schemas && name in candidates && Mentions(unsearched, name)
                                && !Reached(roots, schemas, candidates, name) && !OutOfCycle(schemas, name)
  {
    forall name | name in schemas.Keys - alive
      ensures DocumentMentions(roots, Restricted(schemas, alive), unsearched, name) <==> Mentions(unsearched, name)
    {
      OnlyUnsearchedMentions(roots, schemas, candidates, alive, unsearched, name);
    }
    forall name | name in schemas
      ensures name in alive <==> Reached(roots, schemas, candidates, name) || OutOfCycle(schemas, name)
    {
      KeptExactly(roots, schemas, candidates, alive, name);
    }
  }

  /** A shared parameter alone refers to a candidate: it is removed, and the parameter is left dangling. */
  lemma ParameterLeftDangling(name: string)
    ensures var schemas: Schemas := map[name := {}];
            var unsearched: Part := {REFERENCE + name};
            && Greatest(Roots({}, {}), schemas, {name}, {})
            && Mentions(unsearched, name)
  {
    var schemas: Schemas := map[name := {}];
    var r := Roots({}, {});
    forall other | Supported(r, schemas, {name}, other) ensures other <= {} {
      if name in other {
        assert Mentioned(r, schemas, other, name);
        assert forall k :: k in schemas ==> k == name;
      }
    }
    assert REFERENCE + name <= REFERENCE + name;
  }
}
