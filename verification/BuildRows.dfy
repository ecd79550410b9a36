/** The three tables of an image build and the SQL transactions on them, as functions on row values. */
module BuildRows {
  type Id = nat

  datatype BuildStatus =
    | Pending | Running
    | Success | Canceled | Failed | FailedTimeout | FailedQuotaExceeded | FailedResourceExhausted | FailedInternal

  datatype ImageStatus = Building | Available | Deleting | Missing | Errored

  datatype OutboxStatus = Unsent | Publishing | Published | Discarded

  datatype Build = Build(imageId: Id, owner: Id, archiveKey: Id, status: BuildStatus)

  datatype Image = Image(owner: Id, tag: string, sizeMB: nat, status: ImageStatus)

  // The outbox is keyed by the build it announces: the column is unique and the row dies with the build.
  datatype Rows = Rows(builds: map<Id, Build>, images: map<Id, Image>, outbox: map<Id, OutboxStatus>)

  predicate Terminal(status: BuildStatus) {
    match status
    case Success | Canceled | Failed | FailedTimeout => true
    case FailedQuotaExceeded | FailedResourceExhausted | FailedInternal => true
    case Pending | Running => false
  }

  predicate ActiveBuild(r: Rows, b: Id) {
    b in r.builds && !Terminal(r.builds[b].status)
  }

  predicate SameTag(i: Image, j: Image) {
    i.owner == j.owner && i.tag == j.tag
  }

  /** One of the two partial unique indexes on (owner, tag) already holds a row for this pair. */
  predicate TagTaken(images: map<Id, Image>, owner: Id, tag: string, building: bool) {
    exists i :: i in images && images[i].owner == owner && images[i].tag == tag && images[i].status.Building? == building
  }

  /** Whether the insert transaction of a new build meets no key or index conflict. */
  predicate CanCreate(r: Rows, b: Id, img: Id, owner: Id, tag: string) {
    b !in r.builds && b !in r.outbox && img !in r.images && !TagTaken(r.images, owner, tag, true)
  }

  function CreateQueuedBuildTx(r: Rows, b: Id, img: Id, owner: Id, tag: string, key: Id): Rows {
    Rows(r.builds[b := Build(img, owner, key, Pending)],
         r.images[img := Image(owner, tag, 0, Building)],
         r.outbox[b := Unsent])
  }

  function StartBuildTx(r: Rows, b: Id): Rows {
    if b in r.builds && r.builds[b].status.Pending? then r.(builds := r.builds[b := r.builds[b].(status := Running)])
    else r
  }

  function MarkBuildFailedTx(r: Rows, b: Id, img: Id, status: BuildStatus): Rows {
    if ActiveBuild(r, b) then r.(builds := r.builds[b := r.builds[b].(status := status)], images := r.images - {img})
    else r
  }

  function UpdateBuildAndImageSizeTx(r: Rows, b: Id, img: Id, status: BuildStatus, sizeMB: nat): Rows {
    if ActiveBuild(r, b) then
      r.(builds := r.builds[b := r.builds[b].(status := status)], images := ReplaceImage(r.images, img, sizeMB))
    else r
  }

  /** The other rows of the image's owner and tag go; the image itself becomes available with its size. */
  function ReplaceImage(images: map<Id, Image>, img: Id, sizeMB: nat): map<Id, Image> {
    if img !in images then images
    else map i | i in images && (i == img || !SameTag(images[i], images[img])) ::
           if i == img then images[i].(sizeMB := sizeMB, status := Available) else images[i]
  }

  /** Deleting the build row cascades to its outbox row, not to the image row. */
  function DeleteBuildTx(r: Rows, b: Id): Rows {
    r.(builds := r.builds - {b}, outbox := r.outbox - {b})
  }

  /** The rows a lease may take: unsent ones, and publishing ones whose lease ran out. */
  predicate Leasable(r: Rows, bs: set<Id>) {
    forall b :: b in bs ==> b in r.outbox && (r.outbox[b].Unsent? || r.outbox[b].Publishing?)
  }

  function LeaseTx(r: Rows, bs: set<Id>): Rows {
    r.(outbox := map b | b in r.outbox :: if b in bs then Publishing else r.outbox[b])
  }

  function MarkOutboxTx(r: Rows, b: Id, status: OutboxStatus): Rows {
    if b in r.outbox then r.(outbox := r.outbox[b := status]) else r
  }
}
