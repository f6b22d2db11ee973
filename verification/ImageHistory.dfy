/** Whole runs of the image store: exactly when a stored image is still there. */
module ImageHistory {
  import opened Common
  import opened ImageStore

  datatype Action =
    | StoreImage(id: string, image: Image)
    | GetImage(id: string, requester: string)
    | Mark(id: string, user: string)
    | SweepExpired

  datatype Step = Step(at: real, act: Action)

  function Next(s: Images, e: Step): Images {
    match e.act
    case StoreImage(id, image) => s[id := image]
    case GetImage(id, _) => AfterGet(s, id, e.at)
    case Mark(id, user) => AfterMark(s, id, user)
    case SweepExpired => AfterSweep(s, e.at)
  }

  ghost function Run(run: seq<Step>, n: nat): Images
    requires n <= |run|
  {
    if n == 0 then map[] else Next(Run(run, n - 1), run[n - 1])
  }

  /** Step s stores an image under an identifier that no later step stores under. */
  ghost predicate StoresOnce(run: seq<Step>, s: nat, id: string, image: Image) {
    && s < |run|
    && run[s].act == StoreImage(id, image)
    && image.viewed == {}
    && forall k | s < k < |run| :: run[k].act.StoreImage? ==> run[k].act.id != id
  }

  /** Those other than the sender who marked the image between steps s and n. */
  ghost function Markers(run: seq<Step>, s: nat, n: nat, id: string, sender: string): set<string>
    requires s < n <= |run|
  {
    set k | s < k < n && run[k].act.Mark? && run[k].act.id == id && run[k].act.user != sender :: run[k].act.user
  }

  /** Step k is a mark by someone other than the sender after which everyone needed has marked the image. */
  ghost predicate CompletedAt(run: seq<Step>, s: nat, k: nat, id: string, image: Image)
    requires s < k < |run|
  {
    && run[k].act.Mark? && run[k].act.id == id && run[k].act.user != image.sender
    && image.needed <= Markers(run, s, k + 1, id, image.sender)
  }

  /** Step k looks at the image, or sweeps the store, after the image's time is up. */
  ghost predicate ExpiryNoticedAt(run: seq<Step>, k: nat, id: string, image: Image)
    requires k < |run|
  {
    run[k].at > image.expiresAt && (run[k].act.SweepExpired? || (run[k].act.GetImage? && run[k].act.id == id))
  }

  ghost predicate EndedBy(run: seq<Step>, s: nat, n: nat, id: string, image: Image)
    requires s < n <= |run|
  {
    exists k :: s < k < n && (CompletedAt(run, s, k, id, image) || ExpiryNoticedAt(run, k, id, image))
  }

  /** How a step that does not end an image affects it. */
  lemma {:induction false} StepOnPresent(s: Images, e: Step, id: string)
    requires id in s && (e.act.StoreImage? ==> e.act.id != id)
    ensures var s' := Next(s, e);
            var counted := e.act.Mark? && e.act.id == id && e.act.user != s[id].sender;
            var seen := if counted then s[id].viewed + {e.act.user} else s[id].viewed;
            var ends := (counted && s[id].needed <= seen) ||
                        (e.at > s[id].expiresAt && (e.act.SweepExpired? || (e.act.GetImage? && e.act.id == id)));
            && (id in s' <==> !ends)
            && (id in s' ==> s'[id] == s[id].(viewed := seen))
  {
  }

  lemma {:induction false} StepOnAbsent(s: Images, e: Step, id: string)
    requires id !in s && (e.act.StoreImage? ==> e.act.id != id)
    ensures id !in Next(s, e)
  {
  }

  lemma {:induction false} MarkersGrow(run: seq<Step>, s: nat, n: nat, id: string, sender: string)
    requires s < n < |run|
    ensures var e := run[n].act;
            Markers(run, s, n + 1, id, sender) ==
            Markers(run, s, n, id, sender) + (if e.Mark? && e.id == id && e.user != sender then {e.user} else {})
  {
    var before, after := Markers(run, s, n, id, sender), Markers(run, s, n + 1, id, sender);
    forall u | u in after
      ensures u in before || (run[n].act.Mark? && run[n].act.id == id && run[n].act.user != sender &&
              u == run[n].act.user)
    {
      var k :| s < k < n + 1 && run[k].act.Mark? && run[k].act.id == id && run[k].act.user != sender &&
          run[k].act.user == u;
      if k < n {
        assert u in before;
      }
    }
  }

  /** A stored image is present exactly until a non-sender's mark leaves everyone needed marked, or an access or sweep
      finds its time is up; meanwhile it holds what was stored and the marks of everyone but the sender. */
  lemma {:induction false} PresentIff(run: seq<Step>, s: nat, n: nat, id: string, image: Image)
    requires StoresOnce(run, s, id, image) && s < n <= |run|
    ensures id in Run(run, n) <==> !EndedBy(run, s, n, id, image)
    ensures id in Run(run, n) ==> Run(run, n)[id] == image.(viewed := Markers(run, s, n, id, image.sender))
    decreases n
  {
    if n == s + 1 {
      assert Markers(run, s, n, id, image.sender) == {};
    } else {
      var m := n - 1;
      PresentIff(run, s, m, id, image);
      MarkersGrow(run, s, m, id, image.sender);
      EndedLater(run, s, m, id, image);
      if id in Run(run, m) {
        StepOnPresent(Run(run, m), run[m], id);
      } else {
        StepOnAbsent(Run(run, m), run[m], id);
      }
    }
  }

  lemma {:induction false} EndedLater(run: seq<Step>, s: nat, m: nat, id: string, image: Image)
    requires s < m < |run|
    ensures EndedBy(run, s, m + 1, id, image) <==>
            EndedBy(run, s, m, id, image) || CompletedAt(run, s, m, id, image) || ExpiryNoticedAt(run, m, id, image)
  {
  }

  /** Marks by the sender never bring the end nearer: without any other mark, only time can remove the image. */
  lemma {:induction false} SenderMarksNeverCount(run: seq<Step>, s: nat, n: nat, id: string, image: Image)
    requires StoresOnce(run, s, id, image) && s < n <= |run|
    requires forall k | s < k < n && run[k].act.Mark? && run[k].act.id == id :: run[k].act.user == image.sender
    ensures id in Run(run, n) <==> !exists k :: s < k < n && ExpiryNoticedAt(run, k, id, image)
  {
    PresentIff(run, s, n, id, image);
  }

  // ---------- who gets what ----------

  /** What a request in the run is answered. */
  ghost function Answer(run: seq<Step>, n: nat): Option<Copy>
    requires n < |run| && run[n].act.GetImage?
  {
    Fetched(Run(run, n), run[n].act.id, run[n].act.requester, run[n].at)
  }

  /** The sender and everyone needed are handed exactly the stored bytes while the image is in time and has not ended;
      nobody else, and nobody otherwise, is handed anything. */
  lemma {:induction false} AnswerIff(run: seq<Step>, s: nat, n: nat, id: string, image: Image)
    requires StoresOnce(run, s, id, image) && s < n < |run| && run[n].act.GetImage? && run[n].act.id == id
    ensures var r, copy := run[n].act.requester, Answer(run, n);
            && (copy.Some? <==> && !EndedBy(run, s, n, id, image) && run[n].at <= image.expiresAt
                                && (r == image.sender || r in image.needed))
            && (copy.Some? ==>
                  && copy.value.data == image.data && copy.value.nonce == image.nonce
                  && copy.value.aesKey == image.aesKey && copy.value.sender == image.sender
                  && copy.value.group == image.group)
  {
    PresentIff(run, s, n, id, image);
  }

  /** The latest step before n that stored what is there now. */
  lemma {:induction false} StoredBy(run: seq<Step>, n: nat, id: string) returns (k: nat)
    requires n <= |run| && id in Run(run, n)
    ensures k < n && run[k].act.StoreImage? && run[k].act.id == id
    ensures Run(run, n)[id] == run[k].act.image.(viewed := Run(run, n)[id].viewed)
  {
    if run[n - 1].act.StoreImage? && run[n - 1].act.id == id {
      k := n - 1;
    } else {
      k := StoredBy(run, n - 1, id);
    }
  }

  /** In any run, whoever is handed something is the sender of an image stored earlier under that identifier or one of
      those who must see it, and is handed that image. */
  lemma {:induction false} AnswerWasStored(run: seq<Step>, n: nat) returns (k: nat)
    requires n < |run| && run[n].act.GetImage? && Answer(run, n).Some?
    ensures k < n && run[k].act.StoreImage? && run[k].act.id == run[n].act.id
    ensures var image, r, copy := run[k].act.image, run[n].act.requester, Answer(run, n).value;
            && (r == image.sender || r in image.needed) && run[n].at <= image.expiresAt
            && copy.data == image.data && copy.nonce == image.nonce && copy.aesKey == image.aesKey
            && copy.sender == image.sender && copy.group == image.group
  {
    k := StoredBy(run, n, run[n].act.id);
  }

  /** So whoever is neither sender nor member of any image stored under the identifier never gets anything. */
  lemma {:induction false} StrangerGetsNothing(run: seq<Step>, n: nat)
    requires n < |run| && run[n].act.GetImage?
    requires forall k | 0 <= k < n && run[k].act.StoreImage? && run[k].act.id == run[n].act.id ::
               run[n].act.requester != run[k].act.image.sender && run[n].act.requester !in run[k].act.image.needed
    ensures Answer(run, n) == None
  {
    if Answer(run, n).Some? {
      var k := AnswerWasStored(run, n);
    }
  }
}
