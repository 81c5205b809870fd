/** Rewriting the job-title classification codes of one person's
    association list through the mapping table. */
module Remap {
  import opened Records

  /** The mapping table: current classification code to new code. */
  type Mapping = map<string, string>

  /** The classification code of an association: `jobTitle.uri`, absent when
      either member is absent. */
  function UriOf(a: Association): (u: Option<string>)
    ensures a.jobTitle.None? ==> u.None?
    ensures a.jobTitle.Some? ==> u == a.jobTitle.value.uri
  {
    match a.jobTitle
    case Some(jt) => jt.uri
    case None => None
  }

  /** The association's code is a mapping key whose value differs from it. */
  predicate Rewrites(a: Association, mapping: Mapping)
    ensures Rewrites(a, mapping) ==> a.jobTitle.Some? && a.jobTitle.value.uri.Some?
    ensures mapping == map[] ==> !Rewrites(a, mapping)
    ensures UriOf(a).Some? && UriOf(a).value in mapping && mapping[UriOf(a).value] == UriOf(a).value ==>
      !Rewrites(a, mapping)
  {
    UriOf(a).Some? && UriOf(a).value in mapping && mapping[UriOf(a).value] != UriOf(a).value
  }

  /** The association after the loop body has run on it. */
  function RemapAssociation(a: Association, mapping: Mapping): (b: Association)
    ensures b.rest == a.rest && b.jobTitle.Some? == a.jobTitle.Some?
    ensures b.jobTitle.Some? ==> b.jobTitle.value.rest == a.jobTitle.value.rest
    ensures UriOf(b) == if UriOf(a).Some? && UriOf(a).value in mapping then Some(mapping[UriOf(a).value]) else UriOf(a)
  {
    if Rewrites(a, mapping) then
      a.(jobTitle := Some(a.jobTitle.value.(uri := Some(mapping[UriOf(a).value]))))
    else a
  }

  /** The association list after the loop has run over all of it. */
  function Remapped(associations: seq<Association>, mapping: Mapping): (r: seq<Association>)
    ensures |r| == |associations|
    ensures forall i | 0 <= i < |r| :: r[i] == associations[i] <==> !Rewrites(associations[i], mapping)
  {
    seq(|associations|, i requires 0 <= i < |associations| => RemapAssociation(associations[i], mapping))
  }

  /** Some association of the list would be rewritten. */
  predicate NeedsUpdate(associations: seq<Association>, mapping: Mapping)
    ensures associations == [] ==> !NeedsUpdate(associations, mapping)
    ensures mapping == map[] ==> !NeedsUpdate(associations, mapping)
    ensures NeedsUpdate(associations, mapping) ==>
      exists i | 0 <= i < |associations| :: associations[i].jobTitle.Some? && UriOf(associations[i]).Some? && UriOf(associations[i]).value in mapping
  {
    exists i | 0 <= i < |associations| :: Rewrites(associations[i], mapping)
  }

  /** The list keeps its length and order; every code that is a mapping key
      becomes its value, taken once and never chained; every other code, and
      everything besides the code, is left as it was. */
  lemma RemappedCodes(associations: seq<Association>, mapping: Mapping)
    ensures |Remapped(associations, mapping)| == |associations|
    ensures forall i | 0 <= i < |associations| ::
      var a, b := associations[i], Remapped(associations, mapping)[i];
      && b.rest == a.rest
      && b.jobTitle.Some? == a.jobTitle.Some?
      && (b.jobTitle.Some? ==> b.jobTitle.value.rest == a.jobTitle.value.rest)
      && UriOf(b) == (if UriOf(a).Some? && UriOf(a).value in mapping then Some(mapping[UriOf(a).value]) else UriOf(a))
  {
  }

  /** A record needs a write exactly when remapping changes its list. */
  lemma NeedsUpdateIffChanged(associations: seq<Association>, mapping: Mapping)
    ensures NeedsUpdate(associations, mapping) <==> Remapped(associations, mapping) != associations
  {
    var r := Remapped(associations, mapping);
    if NeedsUpdate(associations, mapping) {
      var i :| 0 <= i < |associations| && Rewrites(associations[i], mapping);
      assert UriOf(r[i]) != UriOf(associations[i]);
    } else {
      forall i | 0 <= i < |associations| ensures r[i] == associations[i] {
        assert !Rewrites(associations[i], mapping);
      }
    }
  }

  /** No key maps to another key with a different value. */
  predicate Unchained(mapping: Mapping)
  {
    forall k | k in mapping && mapping[k] in mapping :: mapping[mapping[k]] == mapping[k]
  }

  /** With an unchained mapping a remapped list needs no further write. */
  lemma RemapSettles(associations: seq<Association>, mapping: Mapping)
    requires Unchained(mapping)
    ensures !NeedsUpdate(Remapped(associations, mapping), mapping)
  {
    var r := Remapped(associations, mapping);
    forall i | 0 <= i < |r| ensures !Rewrites(r[i], mapping) {
      if Rewrites(associations[i], mapping) {
        assert UriOf(r[i]) == Some(mapping[UriOf(associations[i]).value]);
      }
    }
  }

  /** With a chain `k -> v -> w`, `w != v`, an association coded `k` ends up
      coded `v`, which a later pass would rewrite again: one pass applies the
      mapping once. */
  lemma ChainIsFollowedOnce(a: Association, mapping: Mapping)
    requires UriOf(a).Some? && UriOf(a).value in mapping
    requires mapping[UriOf(a).value] in mapping
    requires mapping[mapping[UriOf(a).value]] != mapping[UriOf(a).value]
    ensures UriOf(Remapped([a], mapping)[0]) == Some(mapping[UriOf(a).value])
    ensures NeedsUpdate(Remapped([a], mapping), mapping)
  {
    var r := Remapped([a], mapping);
    assert Rewrites(a, mapping);
    assert Rewrites(r[0], mapping);
  }

  /** The association loop of the per-record step: walks the list, rewrites
      every code that is a mapping key with a different value, and reports
      whether it rewrote any. `allMatch` is never cleared. */
  method RemapJobTitles(associations: seq<Association>, mapping: Mapping)
    returns (result: seq<Association>, updated: bool, allMatch: bool)
    ensures result == Remapped(associations, mapping)
    ensures updated <==> NeedsUpdate(associations, mapping)
    ensures allMatch
  {
    result, updated, allMatch := associations, false, true;
    for i := 0 to |associations|
      invariant |result| == |associations|
      invariant forall j | 0 <= j < i :: result[j] == RemapAssociation(associations[j], mapping)
      invariant forall j | i <= j < |associations| :: result[j] == associations[j]
      invariant updated <==> exists j | 0 <= j < i :: Rewrites(associations[j], mapping)
      invariant allMatch
    {
      var association := result[i];
      var currentUri := UriOf(association);
      if currentUri.Some? && currentUri.value in mapping {
        var newUri := mapping[currentUri.value];
        if currentUri.value != newUri {
          var jobTitle := association.jobTitle.value;
          result := result[i := association.(jobTitle := Some(jobTitle.(uri := Some(newUri))))];
          updated := true;
        } else {
          allMatch := allMatch && true;
        }
      } else {
        allMatch := allMatch && true;
      }
    }
  }
}
