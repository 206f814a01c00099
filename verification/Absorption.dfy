/**
 When denormalizing an author twice is denormalizing it once. The title pass that ends the first
 round changes the titles under which works without a short title are counted in the second,
 and that is harmless exactly when no title clashes with the one of another work.
 */
module Absorption {
  import opened SortedList
  import opened Resources
  import opened AuthorPass

  // ---------------------------------------------------------------------------------------
  // A title pass over works of which some already have their full titles
  // ---------------------------------------------------------------------------------------

  /** A work that a title pass may or may not change. */
  ghost predicate Changeable(w: Work) {
    w.series == [] && w.fullTitle != "" && UseFullTitles(w) != w
  }

  /** Some of the works were given their full titles by an earlier pass. */
  ghost predicate Marks(works: seq<Work>, given: seq<bool>) {
    |given| == |works| && forall i :: 0 <= i < |works| && given[i] ==> works[i].fullTitle != ""
  }

  ghost function Retitled(works: seq<Work>, given: seq<bool>): (r: seq<Work>)
    requires Marks(works, given)
    ensures |r| == |works|
  {
    seq(|works|, i requires 0 <= i < |works| => if given[i] then UseFullTitles(works[i]) else works[i])
  }

  /** Work `h`, which has no short title, was given a full title under which work `i` is counted. */
  ghost predicate Takes(up: Upstream, works: seq<Work>, given: seq<bool>, h: nat, i: nat)
    requires Marks(works, given) && h < |works| && i < |works|
  {
    h != i && given[h] && works[h].shortTitle == "" && up.upper(works[h].fullTitle) == TitleKey(up, works[i])
  }

  /** Work `h` is counted with work `i` and still was, after the earlier pass. */
  ghost predicate Stays(up: Upstream, works: seq<Work>, given: seq<bool>, h: nat, i: nat)
    requires Marks(works, given) && h < |works| && i < |works|
  {
    && h != i && TitleKey(up, works[h]) == TitleKey(up, works[i])
    && (given[h] ==> works[h].shortTitle != "" || up.upper(works[h].fullTitle) == TitleKey(up, works[i]))
  }

  /** Deserted: work `i` was given its full title for the sake of namesakes that are no longer there. */
  ghost predicate Deserted(up: Upstream, works: seq<Work>, given: seq<bool>, i: nat)
    requires Marks(works, given) && i < |works|
  {
    Changeable(works[i]) && given[i] && !SharesTitle(up, works, i)
  }

  /** Joined: work `i` is counted alone, but for a work that took its title. */
  ghost predicate Joined(up: Upstream, works: seq<Work>, given: seq<bool>, i: nat, h: nat)
    requires Marks(works, given) && i < |works| && h < |works|
  {
    Changeable(works[i]) && !given[i] && !SharesTitle(up, works, i) && Takes(up, works, given, h, i)
  }

  /** Missed: work `i` shares its title only with works that went by their full titles before it came. */
  ghost predicate Missed(up: Upstream, works: seq<Work>, given: seq<bool>, i: nat)
    requires Marks(works, given) && i < |works|
  {
    && Changeable(works[i]) && !given[i] && SharesTitle(up, works, i)
    && forall h :: 0 <= h < |works| ==> !Takes(up, works, given, h, i) && !Stays(up, works, given, h, i)
  }

  ghost predicate ClashAt(up: Upstream, works: seq<Work>, given: seq<bool>, i: nat)
    requires Marks(works, given) && i < |works|
  {
    || Deserted(up, works, given, i) || Missed(up, works, given, i)
    || exists h :: 0 <= h < |works| && Joined(up, works, given, i, h)
  }

  lemma RetitledShares(up: Upstream, works: seq<Work>, given: seq<bool>, i: nat)
    requires Marks(works, given) && i < |works| && !given[i]
    ensures SharesTitle(up, Retitled(works, given), i) <==>
            exists h :: 0 <= h < |works| && (Takes(up, works, given, h, i) || Stays(up, works, given, h, i))
  {
    var early := Retitled(works, given);
    forall h | 0 <= h < |works| && h != i
      ensures TitleKey(up, early[h]) == TitleKey(up, early[i]) <==>
                Takes(up, works, given, h, i) || Stays(up, works, given, h, i)
    {
    }
  }

  lemma PassAt(up: Upstream, works: seq<Work>, given: seq<bool>, i: nat)
    requires Marks(works, given) && i < |works|
    ensures TitlePass(up, Retitled(works, given))[i] == TitlePass(up, works)[i] <==> !ClashAt(up, works, given, i)
  {
    FullTitlesKeepTheRest(works[i]);
    if !given[i] {
      RetitledShares(up, works, given, i);
      if !SharesTitle(up, works, i) && Changeable(works[i]) {
        assert forall h :: 0 <= h < |works| ==> !Stays(up, works, given, h, i);
        assert forall h :: 0 <= h < |works| ==> (Takes(up, works, given, h, i) <==> Joined(up, works, given, i, h));
      }
    }
  }

  /** The pass does not see what was given before exactly when no work is deserted, joined or missed. */
  lemma PassForgetsIff(up: Upstream, works: seq<Work>, given: seq<bool>)
    requires Marks(works, given)
    ensures TitlePass(up, Retitled(works, given)) == TitlePass(up, works) <==>
            forall i :: 0 <= i < |works| ==> !ClashAt(up, works, given, i)
  {
    var early, late := TitlePass(up, Retitled(works, given)), TitlePass(up, works);
    forall i | 0 <= i < |works|
      ensures early[i] == late[i] <==> !ClashAt(up, works, given, i)
    {
      PassAt(up, works, given, i);
    }
  }

  // ---------------------------------------------------------------------------------------
  // A title pass before a batch is merged
  // ---------------------------------------------------------------------------------------

  /** The earlier pass leaves no trace after the pass that follows the merge. */
  ghost predicate Absorbed(up: Upstream, works: seq<Work>, batch: map<ID, Work>)
    requires Sorted(works, WorkID) && Keyed(batch, WorkID)
  {
    PassKeepsKeys(up, works);
    TitlePass(up, Merge(TitlePass(up, works), batch, WorkID)) == TitlePass(up, Merge(works, batch, WorkID))
  }

  /** The earlier pass gave the work its full title, and the batch brings no other copy of it. */
  ghost predicate WasGiven(up: Upstream, works: seq<Work>, batch: map<ID, Work>, w: Work) {
    && w.foreignID !in batch && w.fullTitle != ""
    && exists j :: 0 <= j < |works| && works[j] == w && Ambiguous(up, works, j)
  }

  ghost function Given(up: Upstream, works: seq<Work>, batch: map<ID, Work>): (given: seq<bool>)
    requires Sorted(works, WorkID) && Keyed(batch, WorkID)
    ensures Marks(Merge(works, batch, WorkID), given)
  {
    var late := Merge(works, batch, WorkID);
    seq(|late|, i requires 0 <= i < |late| => WasGiven(up, works, batch, late[i]))
  }

  lemma EarlyAt(up: Upstream, works: seq<Work>, batch: map<ID, Work>, i: nat)
    requires Sorted(works, WorkID) && Keyed(batch, WorkID) && Sorted(TitlePass(up, works), WorkID)
    requires i < |Merge(works, batch, WorkID)| == |Merge(TitlePass(up, works), batch, WorkID)|
    requires Merge(TitlePass(up, works), batch, WorkID)[i].foreignID == Merge(works, batch, WorkID)[i].foreignID
    ensures var late := Merge(works, batch, WorkID)[i];
            Merge(TitlePass(up, works), batch, WorkID)[i] ==
                if WasGiven(up, works, batch, late) then UseFullTitles(late) else late
  {
    var once := TitlePass(up, works);
    var late := Merge(works, batch, WorkID)[i];
    var j := MergedAt(works, batch, i);
    var h := MergedAt(once, batch, i);
    if late.foreignID !in batch {
      TitlePassKeepsTheRest(up, works);
      assert h == j by { assert StripTitles(once[h]).foreignID == StripTitles(works[h]).foreignID; }
      assert forall k :: 0 <= k < |works| && works[k] == late ==> k == j;
    }
  }

  /** With an earlier pass the merged list is the same, except for the titles given early. */
  lemma EarlyIsRetitled(up: Upstream, works: seq<Work>, batch: map<ID, Work>)
    requires Sorted(works, WorkID) && Keyed(batch, WorkID)
    ensures Sorted(TitlePass(up, works), WorkID)
    ensures Merge(TitlePass(up, works), batch, WorkID) == Retitled(Merge(works, batch, WorkID), Given(up, works, batch))
  {
    PassKeepsKeys(up, works);
    var early, late := Merge(TitlePass(up, works), batch, WorkID), Merge(works, batch, WorkID);
    SameIdsSamePlaces(early, late, WorkID);
    forall i | 0 <= i < |late|
      ensures early[i] == Retitled(late, Given(up, works, batch))[i]
    {
      EarlyAt(up, works, batch, i);
    }
  }

  /** So neither series nor ratings can tell them apart. */
  lemma {:induction false} RetitledKeepsTheRest(works: seq<Work>, given: seq<bool>)
    requires Marks(works, given)
    ensures forall i :: 0 <= i < |works| ==> SameUpToTitles(Retitled(works, given)[i], works[i])
    ensures RequestedSeries(Retitled(works, given)) == RequestedSeries(works)
    ensures Ratings(Retitled(works, given)) == Ratings(works)
  {
    forall i | 0 <= i < |works|
      ensures SameUpToTitles(Retitled(works, given)[i], works[i])
    {
      FullTitlesKeepTheRest(works[i]);
    }
    RequestsIgnoreTitles(Retitled(works, given), works);
    RatingsIgnoreTitles(Retitled(works, given), works);
  }

  /** An earlier pass is absorbed if and only if no work of the merged list is deserted, joined or missed. */
  lemma EarlierPassIsAbsorbedIff(up: Upstream, works: seq<Work>, batch: map<ID, Work>)
    requires Sorted(works, WorkID) && Keyed(batch, WorkID)
    ensures Absorbed(up, works, batch) <==>
            forall i :: 0 <= i < |Merge(works, batch, WorkID)| ==>
                !ClashAt(up, Merge(works, batch, WorkID), Given(up, works, batch), i)
  {
    EarlyIsRetitled(up, works, batch);
    PassForgetsIff(up, Merge(works, batch, WorkID), Given(up, works, batch));
  }

  // ---------------------------------------------------------------------------------------
  // Short titles
  // ---------------------------------------------------------------------------------------

  ghost predicate AllShortTitled(works: seq<Work>) {
    forall i :: 0 <= i < |works| ==> works[i].shortTitle != ""
  }

  /** The batch keeps the short titles of the works it replaces. */
  ghost predicate KeepsShortTitles(works: seq<Work>, batch: map<ID, Work>) {
    forall i :: 0 <= i < |works| && works[i].foreignID in batch ==>
        batch[works[i].foreignID].shortTitle == works[i].shortTitle
  }

  /** A work given its full title keeps a namesake. */
  lemma NamesakesRemain(up: Upstream, works: seq<Work>, batch: map<ID, Work>, i: nat)
    requires Sorted(works, WorkID) && Keyed(batch, WorkID) && AllShortTitled(works) && KeepsShortTitles(works, batch)
    requires i < |Merge(works, batch, WorkID)| && Merge(works, batch, WorkID)[i].series == []
    requires WasGiven(up, works, batch, Merge(works, batch, WorkID)[i])
    ensures SharesTitle(up, Merge(works, batch, WorkID), i)
  {
    var late := Merge(works, batch, WorkID)[i];
    var j :| 0 <= j < |works| && works[j] == late && Ambiguous(up, works, j);
    var k :| 0 <= k < |works| && k != j && TitleKey(up, works[k]) == TitleKey(up, works[j]);
    NamesakeRemains(up, works, batch, i, j, k);
  }

  lemma NamesakeRemains(up: Upstream, works: seq<Work>, batch: map<ID, Work>, i: nat, j: nat, k: nat)
    requires Sorted(works, WorkID) && Keyed(batch, WorkID)
    requires i < |Merge(works, batch, WorkID)| && j < |works| && works[j] == Merge(works, batch, WorkID)[i]
    requires k < |works| && k != j && TitleKey(up, works[k]) == TitleKey(up, works[j]) && works[k].shortTitle != ""
    requires works[k].foreignID in batch ==> batch[works[k].foreignID].shortTitle == works[k].shortTitle
    ensures SharesTitle(up, Merge(works, batch, WorkID), i)
  {
    var late := Merge(works, batch, WorkID);
    var h := MergeKeepsPlaces(works, batch, k);
    NamesakeIsFound(up, works[k], late[h]);
    assert WorkID(works[k]) != WorkID(works[j]);
    assert late[h].foreignID == works[k].foreignID;
  }

  lemma NamesakeIsFound(up: Upstream, before: Work, after: Work)
    requires before.shortTitle != "" && after.shortTitle == before.shortTitle
    ensures TitleKey(up, after) == TitleKey(up, before)
  {
  }

  lemma NoClashAt(up: Upstream, works: seq<Work>, given: seq<bool>, i: nat)
    requires Marks(works, given) && i < |works|
    requires forall h :: 0 <= h < |works| && given[h] ==> works[h].shortTitle != ""
    requires given[i] && works[i].series == [] ==> SharesTitle(up, works, i)
    ensures !ClashAt(up, works, given, i)
  {
    if !given[i] && SharesTitle(up, works, i) {
      var h :| 0 <= h < |works| && h != i && TitleKey(up, works[h]) == TitleKey(up, works[i]);
      assert Stays(up, works, given, h, i);
    }
  }

  /** With short titles there is no clash. */
  lemma ShortTitlesAbsorb(up: Upstream, works: seq<Work>, batch: map<ID, Work>)
    requires Sorted(works, WorkID) && Keyed(batch, WorkID) && AllShortTitled(works) && KeepsShortTitles(works, batch)
    ensures Absorbed(up, works, batch)
  {
    forall i | 0 <= i < |Merge(works, batch, WorkID)|
      ensures !ClashAt(up, Merge(works, batch, WorkID), Given(up, works, batch), i)
    {
      ShortTitledDoesNotClash(up, works, batch, i);
    }
    EarlierPassIsAbsorbedIff(up, works, batch);
  }

  lemma GivenIsShortTitled(up: Upstream, works: seq<Work>, batch: map<ID, Work>, w: Work)
    requires AllShortTitled(works) && WasGiven(up, works, batch, w)
    ensures w.shortTitle != ""
  {
  }

  lemma ShortTitledDoesNotClash(up: Upstream, works: seq<Work>, batch: map<ID, Work>, i: nat)
    requires Sorted(works, WorkID) && Keyed(batch, WorkID) && AllShortTitled(works) && KeepsShortTitles(works, batch)
    requires i < |Merge(works, batch, WorkID)|
    ensures !ClashAt(up, Merge(works, batch, WorkID), Given(up, works, batch), i)
  {
    var late, given := Merge(works, batch, WorkID), Given(up, works, batch);
    forall h | 0 <= h < |late| && given[h]
      ensures late[h].shortTitle != ""
    {
      GivenIsShortTitled(up, works, batch, late[h]);
    }
    if given[i] && late[i].series == [] { NamesakesRemain(up, works, batch, i); }
    NoClashAt(up, late, given, i);
  }

  // ---------------------------------------------------------------------------------------
  // Denormalizing twice
  // ---------------------------------------------------------------------------------------

  /** If nobody rated the merged works, the author's rating is the one it would have had all along. */
  ghost predicate RatingSurvives(author: Author, works: seq<Work>, merged: seq<Work>) {
    var r := Ratings(works);
    Ratings(merged).0 == 0 && r.0 != 0 ==>
        author.ratingCount == r.0 && author.averageRating == r.1 as real / r.0 as real
  }

  /** Two batches neither clash in titles nor lose a rating. */
  ghost predicate HarmlessBatches(up: Upstream, author: Author, m1: map<ID, Work>, m2: map<ID, Work>)
    requires Sorted(author.works, WorkID) && Keyed(m1, WorkID) && Keyed(m2, WorkID)
  {
    var works := Merge(author.works, m1, WorkID);
    Absorbed(up, works, m2) && RatingSurvives(author, works, Merge(works, m2, WorkID))
  }

  /**
   Denormalizing twice is denormalizing once with the union of the batches, the later copy of a
   work winning, if and only if the first title pass is absorbed and the rating survives.
   */
  lemma DenormalizingTwiceIff(up: Upstream, author: Author, s1: map<ID, Work>, s2: map<ID, Work>, x: Author, y: Author)
    requires IsDenormalized(up, author, s1, x)
    requires IsDenormalized(up, x, s2, y)
    ensures Keyed(s1 + s2, WorkID)
    ensures IsDenormalized(up, author, s1 + s2, y) <==>
            var works := Merge(author.works, s1, WorkID);
            Absorbed(up, works, s2) && RatingSurvives(author, works, Merge(works, s2, WorkID))
  {
    var works := Merge(author.works, s1, WorkID);
    MergeTwice(author.works, s1, s2, WorkID);
    EarlyIsRetitled(up, works, s2);
    RetitledKeepsTheRest(Merge(works, s2, WorkID), Given(up, works, s2));
    FinishedTwiceIff(up, author, works, x, Merge(TitlePass(up, works), s2, WorkID), Merge(works, s2, WorkID), y);
  }

  lemma {:induction false} FinishedTwiceIff(up: Upstream, author: Author, works: seq<Work>, x: Author,
                                            early: seq<Work>, late: seq<Work>,
                                            y: Author)
    requires IsFinished(up, author, works, x) && IsFinished(up, x, early, y)
    requires RequestedSeries(early) == RequestedSeries(late) && Ratings(early) == Ratings(late)
    ensures IsFinished(up, author, late, y) <==>
              TitlePass(up, early) == TitlePass(up, late) && RatingSurvives(author, works, late)
  {
  }
}
