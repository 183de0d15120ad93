/** `get_migration_tree` (crates/sin_migrate/src/utils.rs): the migration
    directories keyed by the version their names start with, in a
    `BTreeMap`, which is modelled as an association list kept in strictly
    ascending key order. */
module MigrationTree {
  import opened Wrappers
  import opened LexOrder
  import opened MigrationText

  datatype Entry = Entry(version: string, path: seq<Component>)

  function Versions(t: seq<Entry>): (vs: seq<string>)
    ensures |vs| == |t|
    ensures forall i :: 0 <= i < |t| ==> vs[i] == t[i].version
  {
    if |t| == 0 then [] else [t[0].version] + Versions(t[1..])
  }

  /** The `BTreeMap` invariant: keys strictly ascending, so each at most once. */
  predicate IsTree(t: seq<Entry>) {
    StrictlySorted(Versions(t))
  }

  /** `BTreeMap::get`. */
  function Lookup(t: seq<Entry>, v: string): (r: Option<seq<Component>>)
    ensures r.None? <==> v !in Versions(t)
  {
    if |t| == 0 then None
    else if t[0].version == v then Some(t[0].path)
    else
      assert Versions(t) == [t[0].version] + Versions(t[1..]);
      Lookup(t[1..], v)
  }

  /** Every key of a tree that has `v` below all its keys. */
  predicate AllAbove(t: seq<Entry>, v: string) {
    forall i :: 0 <= i < |t| ==> Less(v, t[i].version)
  }

  lemma TreeTail(t: seq<Entry>)
    requires IsTree(t) && |t| > 0
    ensures IsTree(t[1..]) && AllAbove(t[1..], t[0].version)
  {
    assert Versions(t[1..]) == Versions(t)[1..];
    forall i | 0 <= i < |t[1..]| ensures Less(t[0].version, t[1..][i].version) {
      assert Versions(t)[0] == t[0].version && Versions(t)[i + 1] == t[i + 1].version;
    }
  }

  lemma TreeCons(e: Entry, t: seq<Entry>)
    requires IsTree(t) && AllAbove(t, e.version)
    ensures IsTree([e] + t)
  {
    var vs := Versions([e] + t);
    assert vs == [e.version] + Versions(t);
  }

  /** What inserting `v` with `p` into `t` must give. */
  ghost predicate InsertedInto(t: seq<Entry>, v: string, p: seq<Component>, r: seq<Entry>) {
    && IsTree(r)
    && Lookup(r, v) == Some(p)
    && (forall w :: w != v ==> Lookup(r, w) == Lookup(t, w))
    && (forall w :: Less(w, v) && AllAbove(t, w) ==> AllAbove(r, w))
  }

  /** A key below the first key of a tree is below all of them. */
  lemma BelowFront(t: seq<Entry>, v: string)
    requires IsTree(t) && (|t| == 0 || Less(v, t[0].version))
    ensures AllAbove(t, v)
  {
    if |t| > 0 {
      TreeTail(t);
      forall i | 0 < i < |t| ensures Less(v, t[i].version) {
        assert t[1..][i - 1] == t[i];
        LessTransitive(v, t[0].version, t[i].version);
      }
    }
  }

  /** A key below every key of the tree goes in front. */
  lemma InsertInFront(t: seq<Entry>, v: string, p: seq<Component>)
    requires IsTree(t) && AllAbove(t, v)
    ensures InsertedInto(t, v, p, [Entry(v, p)] + t)
  {
    var r := [Entry(v, p)] + t;
    TreeCons(Entry(v, p), t);
    assert r[1..] == t;
    forall w | Less(w, v) && AllAbove(t, w) ensures AllAbove(r, w) {
    }
  }

  /** A key already at the front has its path replaced. */
  lemma InsertReplacing(t: seq<Entry>, v: string, p: seq<Component>)
    requires IsTree(t) && |t| > 0 && t[0].version == v
    ensures InsertedInto(t, v, p, [Entry(v, p)] + t[1..])
  {
    var r := [Entry(v, p)] + t[1..];
    TreeTail(t);
    TreeCons(Entry(v, p), t[1..]);
    assert r[1..] == t[1..];
    forall w | Less(w, v) && AllAbove(t, w) ensures AllAbove(r, w) {
    }
  }

  /** A key above the front key goes into the rest of the tree. */
  lemma InsertBehind(t: seq<Entry>, v: string, p: seq<Component>, rest: seq<Entry>)
    requires IsTree(t) && |t| > 0 && Less(t[0].version, v)
    requires InsertedInto(t[1..], v, p, rest)
    ensures InsertedInto(t, v, p, [t[0]] + rest)
  {
    var r := [t[0]] + rest;
    TreeTail(t);
    TreeCons(t[0], rest);
    assert r[1..] == rest;
    LessIrreflexive(v);
    assert Lookup(r, v) == Lookup(rest, v);
    forall w | w != v ensures Lookup(r, w) == Lookup(t, w) {
      if w != t[0].version {
        assert Lookup(r, w) == Lookup(rest, w);
        assert Lookup(t, w) == Lookup(t[1..], w);
      }
    }
    forall w | Less(w, v) && AllAbove(t, w) ensures AllAbove(r, w) {
      assert AllAbove(t[1..], w);
    }
  }

  /** `BTreeMap::insert`: the key is given the path, replacing an earlier
      one; the other keys keep theirs. */
  function Insert(t: seq<Entry>, v: string, p: seq<Component>): (r: seq<Entry>)
    requires IsTree(t)
    ensures IsTree(r)
    ensures Lookup(r, v) == Some(p)
    ensures forall w :: w != v ==> Lookup(r, w) == Lookup(t, w)
    ensures forall w :: Less(w, v) && AllAbove(t, w) ==> AllAbove(r, w)
  {
    if |t| == 0 || Less(v, t[0].version) then
      BelowFront(t, v);
      InsertInFront(t, v, p);
      [Entry(v, p)] + t
    else if t[0].version == v then
      InsertReplacing(t, v, p);
      [Entry(v, p)] + t[1..]
    else
      LessTotal(v, t[0].version);
      TreeTail(t);
      var rest := Insert(t[1..], v, p);
      InsertBehind(t, v, p, rest);
      [t[0]] + rest
  }

  /** The paths the directory listing yields, up to and including the
      first failed read. */
  function GetMigrationTree(listing: seq<Result<seq<Component>, MigrationError>>): (r: Result<seq<Entry>, MigrationError>)
    ensures r.Ok? ==> IsTree(r.value)
    decreases |listing|
  {
    if |listing| == 0 then Ok([])
    else
      var last := listing[|listing| - 1];
      match GetMigrationTree(listing[..|listing| - 1])
      case Err(e) => Err(e)
      case Ok(t) =>
        match last
        case Err(e) => Err(e)
        case Ok(p) =>
          match ExtractVersion(p)
          case Err(e) => Err(e)
          case Ok(v) => Ok(Insert(t, v, p))
  }

  /** An entry of the listing that stops the loop: a failed read, or a path
      whose version cannot be read. */
  function EntryError(e: Result<seq<Component>, MigrationError>): Option<MigrationError> {
    match e
    case Err(err) => Some(err)
    case Ok(p) => if ExtractVersion(p).Err? then Some(ExtractVersion(p).error) else None
  }

  /** The first entry that stops the loop, if any. */
  function FirstError(listing: seq<Result<seq<Component>, MigrationError>>): (r: Option<MigrationError>)
    ensures r.None? <==> forall i :: 0 <= i < |listing| ==> EntryError(listing[i]).None?
  {
    if |listing| == 0 then None
    else if EntryError(listing[0]).Some? then EntryError(listing[0])
    else
      assert forall i :: 0 < i < |listing| ==> listing[1..][i - 1] == listing[i];
      FirstError(listing[1..])
  }

  /** The path of the last listed directory with version `v`, if any. */
  function LastPathFor(listing: seq<Result<seq<Component>, MigrationError>>, v: string): Option<seq<Component>>
    decreases |listing|
  {
    if |listing| == 0 then None
    else
      var last := listing[|listing| - 1];
      if last.Ok? && ExtractVersion(last.value) == Ok(v) then Some(last.value)
      else LastPathFor(listing[..|listing| - 1], v)
  }

  /** The call fails exactly with the first entry that stops the loop. */
  lemma {:induction false} TreeFailsWithFirstError(listing: seq<Result<seq<Component>, MigrationError>>)
    ensures GetMigrationTree(listing).Err? <==> FirstError(listing).Some?
    ensures GetMigrationTree(listing).Err? ==> GetMigrationTree(listing).error == FirstError(listing).value
    decreases |listing|
  {
    if |listing| > 0 {
      var init := listing[..|listing| - 1];
      var e := listing[|listing| - 1];
      assert init + [e] == listing;
      TreeFailsWithFirstError(init);
      FirstErrorOfSnoc(init, e);
      TreeOfSnoc(init, e);
    }
  }

  /** One more listed entry: the call fails when it failed before or when
      the new entry stops the loop, with the earlier error first. */
  lemma TreeOfSnoc(init: seq<Result<seq<Component>, MigrationError>>, e: Result<seq<Component>, MigrationError>)
    ensures GetMigrationTree(init + [e]).Err? <==> GetMigrationTree(init).Err? || EntryError(e).Some?
    ensures GetMigrationTree(init + [e]).Err? ==>
              GetMigrationTree(init + [e]).error
              == if GetMigrationTree(init).Err? then GetMigrationTree(init).error else EntryError(e).value
  {
    var l := init + [e];
    assert l[..|l| - 1] == init;
    assert l[|l| - 1] == e;
  }

  lemma {:induction false} FirstErrorOfSnoc(init: seq<Result<seq<Component>, MigrationError>>, e: Result<seq<Component>, MigrationError>)
    ensures FirstError(init + [e]) == if FirstError(init).Some? then FirstError(init) else EntryError(e)
    decreases |init|
  {
    if |init| == 0 {
      assert init + [e] == [e];
      assert [e][1..] == [];
    } else {
      assert (init + [e])[0] == init[0];
      assert (init + [e])[1..] == init[1..] + [e];
      FirstErrorOfSnoc(init[1..], e);
    }
  }

  /** When the call succeeds, every listed version is a key holding the path
      of the LAST directory listed with that version, and there is no other
      key. */
  lemma {:induction false} TreeHoldsLastPath(listing: seq<Result<seq<Component>, MigrationError>>, v: string)
    requires GetMigrationTree(listing).Ok?
    ensures Lookup(GetMigrationTree(listing).value, v) == LastPathFor(listing, v)
    decreases |listing|
  {
    if |listing| > 0 {
      TreeHoldsLastPath(listing[..|listing| - 1], v);
    }
  }

  /** Two directories with the same version: the one listed later wins. */
  lemma LaterDuplicateWins(p1: seq<Component>, p2: seq<Component>, v: string)
    requires ExtractVersion(p1) == Ok(v) && ExtractVersion(p2) == Ok(v)
    ensures GetMigrationTree([Ok(p1), Ok(p2)]).Ok?
    ensures Lookup(GetMigrationTree([Ok(p1), Ok(p2)]).value, v) == Some(p2)
  {
    var listing: seq<Result<seq<Component>, MigrationError>> := [Ok(p1), Ok(p2)];
    assert listing[..1] == [Ok(p1)];
    assert listing[..1][..0] == [];
    assert GetMigrationTree(listing[..1][..0]) == Ok([]);
    assert GetMigrationTree(listing[..1]) == Ok(Insert([], v, p1));
    assert GetMigrationTree(listing).Ok?;
    TreeHoldsLastPath(listing, v);
  }
}
