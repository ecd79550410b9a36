/**
 Disk accounting of image replacement: the use that completion predicts before its transaction is the use the
 transaction leaves.
 */
module DiskAccounting {
  import opened BuildRows
  import opened BuildProtocol
  import opened Sums
  import Runs

  function SizeOf(images: map<Id, Image>): Id -> int {
    i => if i in images then images[i].sizeMB else 0
  }

  /** The rows that count against an owner: all but the ones being deleted. */
  function CountedImages(images: map<Id, Image>, owner: Id): set<Id> {
    set i | i in images && images[i].owner == owner && !images[i].status.Deleting?
  }

  /** The rows a success for `img` will replace, as the prediction counts them. */
  function ReplacedImages(images: map<Id, Image>, owner: Id, tag: string, img: Id): set<Id> {
    set i | i in images && images[i].owner == owner && images[i].tag == tag && i != img
            && !images[i].status.Building? && !images[i].status.Deleting?
  }

  ghost function UsedMB(images: map<Id, Image>, owner: Id): int {
    SumOver(CountedImages(images, owner), SizeOf(images))
  }

  ghost function ReplacedMB(images: map<Id, Image>, owner: Id, tag: string, img: Id): int {
    SumOver(ReplacedImages(images, owner, tag, img), SizeOf(images))
  }

  /** Rounds up, never to less than the bytes need nor to a whole megabyte more. */
  function BytesToMBRoundedUp(bytes: int): (mb: int)
    ensures mb >= 0 && (bytes > 0 ==> (mb - 1) * 0x100000 < bytes <= mb * 0x100000)
    ensures bytes <= 0 ==> mb == 0
  {
    if bytes <= 0 then 0 else (bytes + 0x100000 - 1) / 0x100000
  }

  /** What is replaced is part of what is counted, so the predicted use is never negative. */
  lemma ReplacedIsCounted(images: map<Id, Image>, owner: Id, tag: string, img: Id)
    ensures 0 <= ReplacedMB(images, owner, tag, img) <= UsedMB(images, owner)
  {
    var part, all := ReplacedImages(images, owner, tag, img), CountedImages(images, owner);
    SumPart(part, all, SizeOf(images));
    SumNonNegative(part, SizeOf(images));
  }

  /* ---- The quota check ---- */

  /** The check before a success: what the images and volumes use, less what will be replaced, plus the new image. */
  predicate QuotaAllows(usedMB: int, replacedMB: int, sizeMB: int, quotaMB: int) {
    (if usedMB - replacedMB < 0 then 0 else usedMB - replacedMB) + sizeMB <= quotaMB
  }

  /** The check passes on these image rows. */
  ghost predicate CheckPasses(images: map<Id, Image>, img: Id, sizeMB: int, volumeMB: int, quotaMB: int) {
    img in images &&
    var owner, tag := images[img].owner, images[img].tag;
    QuotaAllows(UsedMB(images, owner) + volumeMB, ReplacedMB(images, owner, tag, img), sizeMB, quotaMB)
  }

  /** The clamp never fires: the check compares the predicted use with the quota. */
  lemma CheckIsPlain(images: map<Id, Image>, img: Id, sizeMB: int, volumeMB: int, quotaMB: int)
    requires img in images && volumeMB >= 0
    ensures var owner, tag := images[img].owner, images[img].tag;
            CheckPasses(images, img, sizeMB, volumeMB, quotaMB)
            <==> UsedMB(images, owner) - ReplacedMB(images, owner, tag, img) + sizeMB + volumeMB <= quotaMB
  {
    ReplacedIsCounted(images, images[img].owner, images[img].tag, img);
  }

  /** The queries of the check, on rows that nobody writes meanwhile. */
  method FitsQuota(images: map<Id, Image>, img: Id, sizeMB: int, volumeBytes: int, quotaMB: int) returns (fits: bool)
    requires img in images
    ensures fits <==> CheckPasses(images, img, sizeMB, BytesToMBRoundedUp(volumeBytes), quotaMB)
  {
    var owner, tag := images[img].owner, images[img].tag;
    var used := Total(CountedImages(images, owner), SizeOf(images));
    var replaced := Total(ReplacedImages(images, owner, tag, img), SizeOf(images));
    fits := QuotaAllows(used + BytesToMBRoundedUp(volumeBytes), replaced, sizeMB, quotaMB);
  }

  lemma ReplaceImageUse(images: map<Id, Image>, img: Id, sizeMB: nat)
    requires TagsUnique(images) && img in images && images[img].status.Building? && images[img].sizeMB == 0
    ensures var owner, tag := images[img].owner, images[img].tag;
            UsedMB(ReplaceImage(images, img, sizeMB), owner)
            == UsedMB(images, owner) - ReplacedMB(images, owner, tag, img) + sizeMB
  {
    var owner, tag := images[img].owner, images[img].tag;
    var after := ReplaceImage(images, img, sizeMB);
    var replaced, counted := ReplacedImages(images, owner, tag, img), CountedImages(images, owner);
    var kept := counted - replaced - {img};
    assert counted == (kept + {img}) + replaced;
    SumSplit(kept + {img}, replaced, SizeOf(images));
    SumRemove(kept + {img}, img, SizeOf(images));
    assert kept + {img} - {img} == kept;
    assert CountedImages(after, owner) == kept + {img};
    SumRemove(kept + {img}, img, SizeOf(after));
    SumSame(kept, SizeOf(images), SizeOf(after));
  }

  lemma ReplaceImageOthers(images: map<Id, Image>, img: Id, sizeMB: nat, owner: Id)
    requires img in images && images[img].owner != owner
    ensures UsedMB(ReplaceImage(images, img, sizeMB), owner) == UsedMB(images, owner)
  {
    var after := ReplaceImage(images, img, sizeMB);
    assert CountedImages(after, owner) == CountedImages(images, owner);
    SumSame(CountedImages(images, owner), SizeOf(images), SizeOf(after));
  }

  lemma SuccessImages(s: State, b: Id, sizeMB: nat)
    requires b in s.issued && ActiveBuild(s.rows, b)
    ensures Apply(s, SettleSuccess(b, sizeMB)).rows.images == ReplaceImage(s.rows.images, s.issued[b], sizeMB)
  {
  }

  /**
   The success transaction of an active build changes its owner's use by exactly its size less what it replaces,
   and no one else's.
   */
  lemma ReplacementIsExact(s: State, b: Id, sizeMB: nat, other: Id)
    requires Reachable(s) && ActiveBuild(s.rows, b)
    ensures b in s.issued && s.issued[b] in s.rows.images
    ensures var before, after := s.rows.images, Apply(s, SettleSuccess(b, sizeMB)).rows.images;
            var owner, tag := before[s.issued[b]].owner, before[s.issued[b]].tag;
            && UsedMB(after, owner) == UsedMB(before, owner) - ReplacedMB(before, owner, tag, s.issued[b]) + sizeMB
            && (other != owner ==> UsedMB(after, other) == UsedMB(before, other))
  {
    ActiveBuildOwnsItsImage(s, b);
    SuccessImages(s, b, sizeMB);
    ReplaceImageUse(s.rows.images, s.issued[b], sizeMB);
    if other != s.rows.images[s.issued[b]].owner { ReplaceImageOthers(s.rows.images, s.issued[b], sizeMB, other); }
  }

  /** Creating a build, and failing or canceling it, leave everyone's counted use as it was. */
  lemma OnlySuccessIsCharged(s: State, a: Action, owner: Id)
    requires Reachable(s) && Enabled(s, a) && (a.Create? || a.SettleFailed? || a.Delete? || a.Start?)
    ensures UsedMB(Apply(s, a).rows.images, owner) == UsedMB(s.rows.images, owner)
  {
    var before, after := s.rows.images, Apply(s, a).rows.images;
    UnchargedImages(s, a);
    if a.Create? {
      WeightlessImage(before, after, a.img, owner);
    } else if a.SettleFailed? && ActiveBuild(s.rows, a.b) {
      ActiveBuildOwnsItsImage(s, a.b);
      WeightlessImage(after, before, s.issued[a.b], owner);
    }
  }

  lemma UnchargedImages(s: State, a: Action)
    requires Enabled(s, a) && (a.Create? || a.SettleFailed? || a.Delete? || a.Start?)
    ensures a.Create? ==> a.img !in s.rows.images
    ensures Apply(s, a).rows.images ==
            if a.Create? then s.rows.images[a.img := Image(a.owner, a.tag, 0, Building)]
            else if a.SettleFailed? && ActiveBuild(s.rows, a.b) then s.rows.images - {s.issued[a.b]}
            else s.rows.images
  {
  }

  lemma WeightlessImage(less: map<Id, Image>, more: map<Id, Image>, img: Id, owner: Id)
    requires img !in less && img in more && less == more - {img} && more[img].sizeMB == 0
    ensures UsedMB(less, owner) == UsedMB(more, owner)
  {
    var f, g := SizeOf(less), SizeOf(more);
    var all := CountedImages(more, owner);
    assert CountedImages(less, owner) == all - {img};
    SumSame(all - {img}, f, g);
    if img in all { SumRemove(all, img, g); } else { assert all - {img} == all; }
  }

  /** Completion with its quota check, while no one else writes images between the check and the transaction. */
  class Completion {
    var rows: Rows

    method CompleteSuccess(ghost s: State, b: Id, img: Id, sizeBytes: nat, volumeBytes: int, quotaMB: int)
      returns (status: BuildStatus)
      requires Reachable(s) && s.rows == rows && ActiveBuild(rows, b) && img == rows.builds[b].imageId
      modifies this
      ensures img in old(rows).images
      ensures var owner, tag := old(rows).images[img].owner, old(rows).images[img].tag;
              var size := if sizeBytes / 0x100000 == 0 then 1 else sizeBytes / 0x100000;
              var predicted := UsedMB(old(rows).images, owner) - ReplacedMB(old(rows).images, owner, tag, img) + size;
              var volumeMB := BytesToMBRoundedUp(volumeBytes);
              && (status.Success? <==> predicted + volumeMB <= quotaMB)
              && (status.Success? ==> UsedMB(rows.images, owner) == predicted && img in rows.images
                                      && rows.images[img] == Image(owner, tag, size, Available))
              && (!status.Success? ==> status.FailedQuotaExceeded? && img !in rows.images
                                       && UsedMB(rows.images, owner) == UsedMB(old(rows).images, owner))
      ensures rows.builds == old(rows).builds[b := old(rows).builds[b].(status := status)] && rows.outbox == old(rows).outbox
    {
      ActiveBuildOwnsItsImage(s, b);
      var owner, tag := rows.images[img].owner, rows.images[img].tag;
      var sizeMB := sizeBytes / 0x100000;
      if sizeMB == 0 { sizeMB := 1; }
      CheckIsPlain(rows.images, img, sizeMB, BytesToMBRoundedUp(volumeBytes), quotaMB);
      var fits := FitsQuota(rows.images, img, sizeMB, volumeBytes, quotaMB);
      if !fits {
        OnlySuccessIsCharged(s, SettleFailed(b, FailedQuotaExceeded), owner);
        rows := MarkBuildFailedTx(rows, b, img, FailedQuotaExceeded);
        return FailedQuotaExceeded;
      }
      ReplaceImageUse(rows.images, img, sizeMB);
      rows := UpdateBuildAndImageSizeTx(rows, b, img, Success, sizeMB);
      return Success;
    }
  }

  /* ---- Between the check and the transaction ---- */

  /** The image keeps its owner and tag from the check to the transaction. */
  lemma SameImage(s: State, t: State, b: Id)
    requires Reachable(s) && Later(s, t) && ActiveBuild(s.rows, b) && ActiveBuild(t.rows, b)
    ensures b in s.issued && b in t.issued && t.issued[b] == s.issued[b]
    ensures var img := s.issued[b];
            && img in s.rows.images && img in t.rows.images && SameTag(s.rows.images[img], t.rows.images[img])
            && s.rows.images[img].owner == s.rows.builds[b].owner
  {
    ReachableKeeps(s);
    LaterKeeps(s, t);
    assert BuildMoves(s, t, b) && ImageFollows(s, b) && ImageFollows(t, b) && ImageMoves(s, t, s.issued[b]);
  }

  /**
   A completion whose check passed at `s` and whose transaction runs at any later `t` keeps the quota exactly when the
   same check would pass at `t`.
   */
  lemma SuccessKeepsQuotaExactly(s: State, t: State, b: Id, sizeMB: nat, volumeMB: nat, quotaMB: int)
    requires Reachable(s) && Later(s, t) && ActiveBuild(s.rows, b) && ActiveBuild(t.rows, b)
    ensures b in s.issued && s.issued[b] in s.rows.images && s.issued[b] in t.rows.images
    ensures var img := s.issued[b];
            UsedMB(Apply(t, SettleSuccess(b, sizeMB)).rows.images, s.rows.images[img].owner) + volumeMB <= quotaMB
            <==> CheckPasses(t.rows.images, img, sizeMB, volumeMB, quotaMB)
  {
    SameImage(s, t, b);
    ReachableLater(s, t);
    ReplacementIsExact(t, b, sizeMB, 0);
    CheckIsPlain(t.rows.images, s.issued[b], sizeMB, volumeMB, quotaMB);
  }

  lemma ReachableLater(s: State, t: State)
    requires Reachable(s) && Later(s, t)
    ensures Reachable(t)
  {
    forall u, v | Reachable(u) && Step(u, v) ensures Reachable(v) { Runs.Onwards(Step, Init, u, v); }
    Runs.LaterKeeps(Step, u => Reachable(u), s, t);
  }

  /** A step that writes image rows of this owner other than empty ones: another success, or an image worker's. */
  predicate WritesImagesOf(s: State, a: Action, owner: Id) {
    match a
    case SettleSuccess(b, _) => ActiveBuild(s.rows, b) && s.rows.builds[b].owner == owner
    case TouchImage(img, _, _) => img in s.rows.images && s.rows.images[img].owner == owner
    case RemoveImage(img) => img in s.rows.images && s.rows.images[img].owner == owner
    case _ => false
  }

  ghost predicate QuietStep(owner: Id, s: State, t: State) {
    exists a :: Enabled(s, a) && t == Apply(s, a) && !WritesImagesOf(s, a, owner)
  }

  /** The rows of an owner that can weigh anything. */
  function Weighty(images: map<Id, Image>, owner: Id): map<Id, Image> {
    map i | i in images && images[i].owner == owner && !images[i].status.Building? :: images[i]
  }

  /** What an owner uses and would have replaced depends on the weighty rows alone. */
  lemma WeightyDecides(before: map<Id, Image>, after: map<Id, Image>, owner: Id, tag: string, img: Id)
    requires Weighty(before, owner) == Weighty(after, owner)
    requires forall i :: i in before && before[i].status.Building? ==> before[i].sizeMB == 0
    requires forall i :: i in after && after[i].status.Building? ==> after[i].sizeMB == 0
    ensures UsedMB(after, owner) == UsedMB(before, owner)
    ensures ReplacedMB(after, owner, tag, img) == ReplacedMB(before, owner, tag, img)
  {
    UseOfWeighty(before, owner);
    UseOfWeighty(after, owner);
    forall i ensures i in Weighty(before, owner) <==> i in Weighty(after, owner) { }
    assert ReplacedImages(after, owner, tag, img) == ReplacedImages(before, owner, tag, img) by {
      forall i ensures i in ReplacedImages(after, owner, tag, img) <==> i in ReplacedImages(before, owner, tag, img) {
        assert i in Weighty(before, owner) ==> before[i] == Weighty(before, owner)[i];
        assert i in Weighty(after, owner) ==> after[i] == Weighty(after, owner)[i];
      }
    }
    forall i | i in ReplacedImages(before, owner, tag, img) ensures SizeOf(before)(i) == SizeOf(after)(i) {
      assert before[i] == Weighty(before, owner)[i] == Weighty(after, owner)[i] == after[i];
    }
    SumSame(ReplacedImages(before, owner, tag, img), SizeOf(before), SizeOf(after));
  }

  lemma UseOfWeighty(images: map<Id, Image>, owner: Id)
    requires forall i :: i in images && images[i].status.Building? ==> images[i].sizeMB == 0
    ensures UsedMB(images, owner) == UsedMB(Weighty(images, owner), owner)
  {
    var all, some := CountedImages(images, owner), CountedImages(Weighty(images, owner), owner);
    assert all == some + (all - some);
    SumSplit(some, all - some, SizeOf(images));
    SumZero(all - some, SizeOf(images));
    SumSame(some, SizeOf(images), SizeOf(Weighty(images, owner)));
  }

  lemma QuietKeepsWeighty(s: State, a: Action, owner: Id)
    requires Inv(s) && Enabled(s, a) && !WritesImagesOf(s, a, owner)
    ensures Weighty(Apply(s, a).rows.images, owner) == Weighty(s.rows.images, owner)
  {
    match a
    case Create(_, _, _, _, _) | Start(_) | Delete(_) => UnchargedImages(s, a);
    case SettleFailed(_, _) => FailureKeepsWeighty(s, a, owner);
    case SettleSuccess(b, _) => if b in s.issued && ActiveBuild(s.rows, b) { OtherSuccess(s, a, owner); }
    case TouchImage(_, _, _) | RemoveImage(_) =>
    case _ => ImagesUntouched(s, a);
  }

  lemma FailureKeepsWeighty(s: State, a: Action, owner: Id)
    requires Inv(s) && Enabled(s, a) && a.SettleFailed?
    ensures Weighty(Apply(s, a).rows.images, owner) == Weighty(s.rows.images, owner)
  {
    UnchargedImages(s, a);
    if a.b in s.issued { assert ImageFollows(s, a.b); }
  }

  lemma ImagesUntouched(s: State, a: Action)
    requires a.Lease? || a.Mark? || a.Publish? || a.Deliver? || a.Ack? || a.Requeue? || a.DeadLetter? || a.Observe?
    ensures Apply(s, a).rows.images == s.rows.images
  {
  }

  lemma OtherSuccess(s: State, a: Action, owner: Id)
    requires Inv(s) && a.SettleSuccess? && a.b in s.issued && ActiveBuild(s.rows, a.b) && s.rows.builds[a.b].owner != owner
    ensures Weighty(Apply(s, a).rows.images, owner) == Weighty(s.rows.images, owner)
  {
    assert ImageFollows(s, a.b);
    SuccessImages(s, a.b, a.sizeMB);
    OtherReplaced(s.rows.images, s.issued[a.b], a.sizeMB, owner);
  }

  lemma OtherReplaced(images: map<Id, Image>, img: Id, sizeMB: nat, owner: Id)
    requires img in images && images[img].owner != owner
    ensures Weighty(ReplaceImage(images, img, sizeMB), owner) == Weighty(images, owner)
  {
  }

  ghost predicate SameWeight(images: map<Id, Image>, owner: Id, t: State) {
    Inv(t) && Weighty(t.rows.images, owner) == Weighty(images, owner)
  }

  /**
   If nothing but empty images of this owner is written between the check and the transaction, a check that passed is
   kept: the use after the success is within the quota.
   */
  lemma QuietSuccessKeepsQuota(s: State, t: State, b: Id, sizeMB: nat, volumeMB: nat, quotaMB: int)
    requires Reachable(s) && ActiveBuild(s.rows, b) && ActiveBuild(t.rows, b)
    requires Runs.Later((x, y) => QuietStep(s.rows.builds[b].owner, x, y), s, t)
    requires b in s.issued && CheckPasses(s.rows.images, s.issued[b], sizeMB, volumeMB, quotaMB)
    ensures UsedMB(Apply(t, SettleSuccess(b, sizeMB)).rows.images, s.rows.builds[b].owner) + volumeMB <= quotaMB
  {
    var owner, img := s.rows.builds[b].owner, s.issued[b];
    ReachableKeeps(s);
    QuietIsLater(s, t, owner);
    QuietRunKeeps(s, t, owner);
    SameImage(s, t, b);
    ReachableKeeps(t);
    WeightyDecides(s.rows.images, t.rows.images, owner, s.rows.images[img].tag, img);
    SuccessKeepsQuotaExactly(s, t, b, sizeMB, volumeMB, quotaMB);
  }

  lemma QuietRunKeeps(s: State, t: State, owner: Id)
    requires Inv(s) && Runs.Later((x, y) => QuietStep(owner, x, y), s, t)
    ensures Weighty(t.rows.images, owner) == Weighty(s.rows.images, owner)
  {
    var images := s.rows.images;
    forall u, v | SameWeight(images, owner, u) && QuietStep(owner, u, v) ensures SameWeight(images, owner, v) {
      var a :| Enabled(u, a) && v == Apply(u, a) && !WritesImagesOf(u, a, owner);
      InvStep(u, a);
      QuietKeepsWeighty(u, a, owner);
    }
    Runs.LaterKeeps((x, y) => QuietStep(owner, x, y), u => SameWeight(images, owner, u), s, t);
  }

  lemma QuietIsLater(s: State, t: State, owner: Id)
    requires Reachable(s) && Runs.Later((x, y) => QuietStep(owner, x, y), s, t)
    ensures Later(s, t) && Reachable(t)
  {
    Runs.AtOnce(Step, s);
    forall u, v | Later(s, u) && QuietStep(owner, u, v) ensures Later(s, v) { Runs.Onwards(Step, s, u, v); }
    Runs.LaterKeeps((x, y) => QuietStep(owner, x, y), u => Later(s, u), s, t);
    ReachableLater(s, t);
  }

  /* ---- Without that assumption the quota can be passed ---- */

  const TwoBuilds := [Create(1, 11, 5, "a:1", 21), Create(2, 12, 5, "b:1", 22)]
  const BothSucceed := [SettleSuccess(1, 60), SettleSuccess(2, 60)]

  lemma RunTwo(s: State, a: Action, b: Action)
    requires Enabled(s, a) && Enabled(Apply(s, a), b)
    ensures Legal(s, [a, b]) && Exec(s, [a, b]) == Apply(Apply(s, a), b)
  {
    Runs.Extend(Enabled, Apply, s, [], a);
    Runs.Extend(Enabled, Apply, s, [a], b);
    assert [] + [a] == [a] && [a] + [b] == [a, b];
  }

  /**
   Two builds of one owner and different tags, each of 60 MB, both read an empty disk. Each predicts a use within a
   quota of 100; after both transactions the use is 120.
   */
  lemma RacingCompletionsCanPassTheQuota(s: State, t: State)
    requires s == Exec(Init, TwoBuilds) && t == Exec(s, BothSucceed)
    ensures Legal(Init, TwoBuilds) && Legal(s, BothSucceed)
    ensures CheckPasses(s.rows.images, 11, 60, 0, 100) && CheckPasses(s.rows.images, 12, 60, 0, 100)
    ensures UsedMB(t.rows.images, 5) == 120
  {
    TwoCreated();
    var before := map[11 := Image(5, "a:1", 0, Building), 12 := Image(5, "b:1", 0, Building)];
    UseOfTwo(before, 11, 12);
    ReplacedIsCounted(before, 5, "a:1", 11);
    ReplacedIsCounted(before, 5, "b:1", 12);
    TwoSettled(s, t);
  }

  lemma TwoCreated()
    ensures Legal(Init, TwoBuilds)
    ensures var s := Exec(Init, TwoBuilds);
            && s.rows.images == map[11 := Image(5, "a:1", 0, Building), 12 := Image(5, "b:1", 0, Building)]
            && s.issued == map[1 := 11, 2 := 12] && ActiveBuild(s.rows, 1) && ActiveBuild(s.rows, 2)
  {
    RunTwo(Init, TwoBuilds[0], TwoBuilds[1]);
  }

  lemma TwoSettled(s: State, t: State)
    requires s.rows.images == map[11 := Image(5, "a:1", 0, Building), 12 := Image(5, "b:1", 0, Building)]
    requires s.issued == map[1 := 11, 2 := 12] && ActiveBuild(s.rows, 1) && ActiveBuild(s.rows, 2)
    requires t == Exec(s, BothSucceed)
    ensures Legal(s, BothSucceed) && UsedMB(t.rows.images, 5) == 120
  {
    RunTwo(s, BothSucceed[0], BothSucceed[1]);
    TwoSuccesses(s);
    UseOfTwo(map[11 := Image(5, "a:1", 60, Available), 12 := Image(5, "b:1", 60, Available)], 11, 12);
  }

  lemma TwoSuccesses(s: State)
    requires s.rows.images == map[11 := Image(5, "a:1", 0, Building), 12 := Image(5, "b:1", 0, Building)]
    requires s.issued == map[1 := 11, 2 := 12] && ActiveBuild(s.rows, 1) && ActiveBuild(s.rows, 2)
    ensures Apply(Apply(s, SettleSuccess(1, 60)), SettleSuccess(2, 60)).rows.images
            == map[11 := Image(5, "a:1", 60, Available), 12 := Image(5, "b:1", 60, Available)]
  {
    var mid := Apply(s, SettleSuccess(1, 60));
    assert "a:1"[0] != "b:1"[0];
    SuccessImages(s, 1, 60);
    assert mid.rows.images == map[11 := Image(5, "a:1", 60, Available), 12 := Image(5, "b:1", 0, Building)];
    SuccessImages(mid, 2, 60);
  }

  lemma UseOfTwo(images: map<Id, Image>, i: Id, j: Id)
    requires i != j && images.Keys == {i, j} && images[i].owner == images[j].owner
    requires !images[i].status.Deleting? && !images[j].status.Deleting?
    ensures UsedMB(images, images[i].owner) == images[i].sizeMB + images[j].sizeMB
  {
    var all := CountedImages(images, images[i].owner);
    assert all == {i, j};
    SumRemove(all, i, SizeOf(images));
    assert all - {i} == {j};
    SumRemove({j}, j, SizeOf(images));
    assert {j} - {j} == {};
  }
}
