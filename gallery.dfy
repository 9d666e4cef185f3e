/**
 * `PhotoGallery`: the photo list, the selected category and the `isProcessing` flag;
 * the upload batch (`handleFileUpload`), deletion (`handleDeletePhoto`), and the two
 * views computed from the state on every render (`filteredPhotos`, `allCategories`).
 *
 * The browser is outside the model. What `FileReader` does with a file, what the
 * classifier's foreign calls do, and the clock reading are given per file as a
 * `FileEnv`; `crypto.randomUUID` is a counter that never hands out an id twice.
 */
module Gallery {
  import opened Options
  import opened Text
  import opened Sorting
  import opened Lists
  import Classification

  type Id = nat

  /** The value of `new Date()`, left opaque. */
  type Timestamp = int

  /** A browser `File`: its name and its declared media type. */
  datatype File = File(name: string, mimeType: string)

  /** What `FileReader.readAsDataURL` does with a file: deliver a data URL or fail. */
  datatype ReadOutcome = Loaded(dataUrl: string) | ReadFailed

  /** The environment's answers while one file is processed. */
  datatype FileEnv = FileEnv(read: ReadOutcome, run: Classification.Run, at: Timestamp)

  /** The `Photo` record. */
  datatype Photo = Photo(id: Id, src: string, name: string, categories: seq<string>, confidence: real, uploadedAt: Timestamp)

  /** The toasts the gallery raises. */
  datatype Notification =
    | InvalidFileType(file: string)                       // "Invalid file type"
    | Categorized(file: string, topLabel: Option<string>) // "Photo categorized!"
    | ProcessingError(file: string)                       // "Error processing image"
    | PhotoDeleted                                        // "Photo deleted"

  /** The gallery's observable effects, in order: toasts and state updates. */
  datatype Event =
    | Toast(note: Notification)
    | ProcessingSet(on: bool)        // setIsProcessing(on)
    | PhotosCommitted(count: nat)    // setPhotos(...), with the new list's length

  const AllSentinel: string := "all"

  /** `file.type.startsWith('image/')`. */
  function IsImage(f: File): (r: bool)
    ensures r <==> exists rest :: f.mimeType == "image/" + rest
  {
    StartsWith(f.mimeType, "image/")
  }

  /** `classification.map(c => c.label)`. */
  function Labels(c: seq<Classification.Scored>): (r: seq<string>)
    ensures |r| == |c| && forall i | 0 <= i < |c| :: r[i] == c[i].name
  {
    seq(|c|, i requires 0 <= i < |c| => c[i].name)
  }

  /** `classification[0]?.label`. */
  function TopLabel(c: seq<Classification.Scored>): (r: Option<string>)
    ensures r.None? <==> |c| == 0
    ensures r.Some? ==> r.value == c[0].name
  {
    if |c| == 0 then None else Some(c[0].name)
  }

  /** The photo built for a file that was read as `src` and classified as `c`. */
  function NewPhoto(id: Id, file: File, src: string, c: seq<Classification.Scored>, at: Timestamp): (p: Photo)
    ensures p.id == id && p.src == src && p.name == file.name && p.uploadedAt == at
    ensures |p.categories| == |c| && forall i | 0 <= i < |c| :: p.categories[i] == c[i].name
    ensures |c| == 0 ==> p.confidence == 0.0
    ensures |c| > 0 ==> p.confidence == c[0].score
  {
    // `classification[0]?.score || 0`
    Photo(id, src, file.name, Labels(c), if |c| > 0 then c[0].score else 0.0, at)
  }

  /** The one toast raised for a file of the batch. */
  function NoteFor(f: File, e: FileEnv): (n: Notification)
    ensures !n.PhotoDeleted? && n.file == f.name
    ensures n.InvalidFileType? <==> !IsImage(f)
    ensures n.ProcessingError? <==> IsImage(f) && e.read.ReadFailed?
    ensures n.Categorized? ==> n.topLabel == TopLabel(Classification.Classify(e.run))
  {
    if !IsImage(f) then InvalidFileType(f.name)
    else if e.read.ReadFailed? then ProcessingError(f.name)
    else Categorized(f.name, TopLabel(Classification.Classify(e.run)))
  }

  /** Progress through a batch: photos built, toasts raised, classifier calls made, next id. */
  datatype Batch = Batch(photos: seq<Photo>, notes: seq<Notification>, calls: seq<Classification.Run>, nextId: Id)

  /**
   * One iteration of the upload loop: a toast always; a photo with the next id, a classifier
   * call and an id exactly for an image that was read; nothing else for any other file.
   */
  function Step(b: Batch, f: File, e: FileEnv): (b': Batch)
    ensures b'.notes == b.notes + [NoteFor(f, e)]
    ensures IsImage(f) && e.read.Loaded? ==>
      && b'.photos == b.photos + [NewPhoto(b.nextId, f, e.read.dataUrl, Classification.Classify(e.run), e.at)]
      && b'.calls == b.calls + [e.run] && b'.nextId == b.nextId + 1
    ensures !IsImage(f) || e.read.ReadFailed? ==> b'.photos == b.photos && b'.calls == b.calls && b'.nextId == b.nextId
  {
    if !IsImage(f) then
      b.(notes := b.notes + [NoteFor(f, e)])
    else
      match e.read
      case ReadFailed =>
        b.(notes := b.notes + [NoteFor(f, e)])
      case Loaded(src) =>
        var c := Classification.Classify(e.run);
        Batch(b.photos + [NewPhoto(b.nextId, f, src, c, e.at)], b.notes + [NoteFor(f, e)], b.calls + [e.run], b.nextId + 1)
  }

  /** The upload loop run over `files` from `start`. */
  function Ingest(files: seq<File>, envs: seq<FileEnv>, start: Batch): (b: Batch)
    requires |envs| == |files|
  {
    if |files| == 0 then start
    else Step(Ingest(files[..|files| - 1], envs[..|files| - 1], start), files[|files| - 1], envs[|files| - 1])
  }

  /**
   * The loop's bookkeeping: one toast per file; photos, classifier calls and consumed ids grow
   * together, by at most one per file.
   */
  lemma {:induction false} IngestCounts(files: seq<File>, envs: seq<FileEnv>, start: Batch)
    requires |envs| == |files|
    ensures var b := Ingest(files, envs, start);
      && |b.notes| == |start.notes| + |files|
      && b.nextId - start.nextId == |b.photos| - |start.photos| == |b.calls| - |start.calls| <= |files|
    decreases |files|
  {
    if |files| > 0 {
      var n := |files| - 1;
      IngestCounts(files[..n], envs[..n], start);
    }
  }

  /** The positions of the files that yield a photo: image-typed and read successfully, in increasing order. */
  function Kept(files: seq<File>, envs: seq<FileEnv>): (ks: seq<nat>)
    requires |envs| == |files|
    ensures forall j | 0 <= j < |ks| :: ks[j] < |files|
    ensures forall j, j' | 0 <= j < j' < |ks| :: ks[j] < ks[j']
    ensures forall k :: k in ks <==> 0 <= k < |files| && IsImage(files[k]) && envs[k].read.Loaded?
  {
    if |files| == 0 then []
    else
      var n := |files| - 1;
      var init := Kept(files[..n], envs[..n]);
      if IsImage(files[n]) && envs[n].read.Loaded? then init + [n] else init
  }

  /** The number of image-typed files. */
  function CountImages(files: seq<File>): nat {
    if |files| == 0 then 0
    else CountImages(files[..|files| - 1]) + if IsImage(files[|files| - 1]) then 1 else 0
  }

  /** The toast of each file, in input order. */
  function NotesOf(files: seq<File>, envs: seq<FileEnv>): (r: seq<Notification>)
    requires |envs| == |files|
    ensures |r| == |files| && forall k | 0 <= k < |files| :: r[k] == NoteFor(files[k], envs[k])
  {
    seq(|files|, k requires 0 <= k < |files| => NoteFor(files[k], envs[k]))
  }

  /** Every file raises exactly one toast, in input order; a non-image file raises "Invalid file type" and nothing else. */
  lemma {:induction false} IngestNotes(files: seq<File>, envs: seq<FileEnv>, start: Batch)
    requires |envs| == |files|
    ensures Ingest(files, envs, start).notes == start.notes + NotesOf(files, envs)
    decreases |files|
  {
    if |files| > 0 {
      var n := |files| - 1;
      IngestNotes(files[..n], envs[..n], start);
      NotesOfSnoc(files, envs);
    }
  }

  lemma NotesOfSnoc(files: seq<File>, envs: seq<FileEnv>)
    requires |envs| == |files| > 0
    ensures NotesOf(files, envs) == NotesOf(files[..|files| - 1], envs[..|files| - 1]) + [NoteFor(files[|files| - 1], envs[|files| - 1])]
  {
    var n := |files| - 1;
    assert forall k | 0 <= k < n :: files[..n][k] == files[k] && envs[..n][k] == envs[k];
  }

  /** The `j`-th new photo: fresh id `next + j`, built from the `j`-th kept file and its classification. */
  function KeptPhoto(files: seq<File>, envs: seq<FileEnv>, ks: seq<nat>, next: Id, j: nat): (p: Photo)
    requires |envs| == |files| && j < |ks| && ks[j] < |files| && envs[ks[j]].read.Loaded?
    ensures p.id == next + j
  {
    var e := envs[ks[j]];
    NewPhoto(next + j, files[ks[j]], e.read.dataUrl, Classification.Classify(e.run), e.at)
  }

  /** `ps` are the photos built, one per position in `ks`, with ids counted up from `next`. */
  ghost predicate BuiltFrom(ps: seq<Photo>, files: seq<File>, envs: seq<FileEnv>, ks: seq<nat>, next: Id)
    requires |envs| == |files|
  {
    |ps| == |ks| &&
    forall j | 0 <= j < |ks| :: ks[j] < |files| && envs[ks[j]].read.Loaded? && ps[j] == KeptPhoto(files, envs, ks, next, j)
  }

  /**
   * The photos of a batch: one per kept file, in input order; the `j`-th new photo gets the
   * `j`-th fresh id and is built from the `j`-th kept file and its classification.
   */
  lemma {:induction false} IngestPhotos(files: seq<File>, envs: seq<FileEnv>, start: Batch)
    requires |envs| == |files| && start.photos == []
    ensures var b := Ingest(files, envs, start);
      && b.nextId == start.nextId + |Kept(files, envs)|
      && BuiltFrom(b.photos, files, envs, Kept(files, envs), start.nextId)
    decreases |files|
  {
    if |files| > 0 {
      var n := |files| - 1;
      IngestPhotos(files[..n], envs[..n], start);
      IngestPhotosStep(files, envs, start, Ingest(files[..n], envs[..n], start), Kept(files[..n], envs[..n]));
    }
  }

  lemma IngestPhotosStep(files: seq<File>, envs: seq<FileEnv>, start: Batch, b0: Batch, ks0: seq<nat>)
    requires |envs| == |files| > 0
    requires b0 == Ingest(files[..|files| - 1], envs[..|files| - 1], start)
    requires ks0 == Kept(files[..|files| - 1], envs[..|files| - 1])
    requires b0.nextId == start.nextId + |ks0|
    requires BuiltFrom(b0.photos, files[..|files| - 1], envs[..|files| - 1], ks0, start.nextId)
    ensures var b := Ingest(files, envs, start);
      && b.nextId == start.nextId + |Kept(files, envs)|
      && BuiltFrom(b.photos, files, envs, Kept(files, envs), start.nextId)
  {
    var n := |files| - 1;
    var b := Ingest(files, envs, start);
    BuiltFromWiden(b0.photos, files, envs, ks0, start.nextId);
    if IsImage(files[n]) && envs[n].read.Loaded? {
      assert Kept(files, envs) == ks0 + [n];
      BuiltFromAppend(b0.photos, files, envs, ks0, start.nextId, b.photos[|b0.photos|]);
    } else {
      assert Kept(files, envs) == ks0;
    }
  }

  /** Photos built from a prefix of the files are built from the whole list. */
  lemma BuiltFromWiden(ps: seq<Photo>, files: seq<File>, envs: seq<FileEnv>, ks: seq<nat>, next: Id)
    requires |envs| == |files| > 0
    requires BuiltFrom(ps, files[..|files| - 1], envs[..|files| - 1], ks, next)
    ensures BuiltFrom(ps, files, envs, ks, next)
  {
    var n := |files| - 1;
    forall j | 0 <= j < |ks|
      ensures ks[j] < |files| && envs[ks[j]].read.Loaded? && ps[j] == KeptPhoto(files, envs, ks, next, j)
    {
      assert files[..n][ks[j]] == files[ks[j]] && envs[..n][ks[j]] == envs[ks[j]];
    }
  }

  /** The photo built from the last file extends the photos built from the earlier kept files. */
  lemma BuiltFromAppend(ps: seq<Photo>, files: seq<File>, envs: seq<FileEnv>, ks: seq<nat>, next: Id, p: Photo)
    requires |envs| == |files| > 0
    requires BuiltFrom(ps, files, envs, ks, next)
    requires var n := |files| - 1; var e := envs[n];
      e.read.Loaded? && p == NewPhoto(next + |ks|, files[n], e.read.dataUrl, Classification.Classify(e.run), e.at)
    ensures BuiltFrom(ps + [p], files, envs, ks + [|files| - 1], next)
  {
    var ks' := ks + [|files| - 1];
    forall j | 0 <= j < |ks| ensures KeptPhoto(files, envs, ks, next, j) == KeptPhoto(files, envs, ks', next, j) {
      assert ks'[j] == ks[j];
    }
  }

  /** Exactly the kept files reach the classifier, in input order. */
  lemma {:induction false} IngestCalls(files: seq<File>, envs: seq<FileEnv>, start: Batch)
    requires |envs| == |files| && start.calls == []
    ensures var b := Ingest(files, envs, start); var ks := Kept(files, envs);
      |b.calls| == |ks| && forall j | 0 <= j < |ks| :: b.calls[j] == envs[ks[j]].run
    decreases |files|
  {
    if |files| > 0 {
      var n := |files| - 1;
      IngestCalls(files[..n], envs[..n], start);
      IngestCallsStep(files, envs, start, Ingest(files[..n], envs[..n], start), Kept(files[..n], envs[..n]));
    }
  }

  lemma IngestCallsStep(files: seq<File>, envs: seq<FileEnv>, start: Batch, b0: Batch, ks0: seq<nat>)
    requires |envs| == |files| > 0
    requires b0 == Ingest(files[..|files| - 1], envs[..|files| - 1], start)
    requires ks0 == Kept(files[..|files| - 1], envs[..|files| - 1])
    requires |b0.calls| == |ks0| && forall j | 0 <= j < |ks0| :: b0.calls[j] == envs[..|files| - 1][ks0[j]].run
    ensures var b := Ingest(files, envs, start); var ks := Kept(files, envs);
      |b.calls| == |ks| && forall j | 0 <= j < |ks| :: b.calls[j] == envs[ks[j]].run
  {
    var n := |files| - 1;
    assert forall j | 0 <= j < |ks0| :: envs[..n][ks0[j]] == envs[ks0[j]];
    if IsImage(files[n]) && envs[n].read.Loaded? {
      assert Kept(files, envs) == ks0 + [n];
    } else {
      assert Kept(files, envs) == ks0;
    }
  }

  /** A batch adds at most one photo per image-typed file. */
  lemma {:induction false} KeptAtMostImages(files: seq<File>, envs: seq<FileEnv>)
    requires |envs| == |files|
    ensures |Kept(files, envs)| <= CountImages(files)
    decreases |files|
  {
    if |files| > 0 {
      var n := |files| - 1;
      KeptAtMostImages(files[..n], envs[..n]);
    }
  }

  /** `prev.filter(photo => photo.id !== photoId)`. */
  function DeleteById(photos: seq<Photo>, id: Id): (r: seq<Photo>)
    ensures forall p :: p in r <==> p in photos && p.id != id
  {
    Filter(photos, (p: Photo) => p.id != id)
  }

  /** Deletion removes every photo with that id and keeps each other photo as often as before. */
  lemma DeleteKeepsOthers(photos: seq<Photo>, id: Id, p: Photo)
    ensures multiset(DeleteById(photos, id))[p] == if p.id == id then 0 else multiset(photos)[p]
  {
    FilterCounts(photos, (q: Photo) => q.id != id, p);
  }

  /** Deleting from a concatenation deletes from each part: the kept photos keep their order. */
  lemma DeleteAppend(photos: seq<Photo>, more: seq<Photo>, id: Id)
    ensures DeleteById(photos + more, id) == DeleteById(photos, id) + DeleteById(more, id)
  {
    FilterAppend(photos, more, (q: Photo) => q.id != id);
  }

  /** Deleting the same id twice leaves the same list as deleting it once. */
  lemma DeleteIdempotent(photos: seq<Photo>, id: Id)
    ensures DeleteById(DeleteById(photos, id), id) == DeleteById(photos, id)
  {
    FilterIdempotent(photos, (p: Photo) => p.id != id);
  }

  /** Deleting an id no photo has changes nothing. */
  lemma DeleteAbsent(photos: seq<Photo>, id: Id)
    requires forall i | 0 <= i < |photos| :: photos[i].id != id
    ensures DeleteById(photos, id) == photos
  {
    FilterKeepsAll(photos, (p: Photo) => p.id != id);
  }

  /** Some category of `p`, lower-cased, contains the lower-cased selection. */
  function MatchesSelection(p: Photo, selected: string): (r: bool)
    ensures r <==> exists i | 0 <= i < |p.categories| :: Includes(ToLower(p.categories[i]), ToLower(selected))
  {
    var matches := (c: string) => Includes(ToLower(c), ToLower(selected));
    AnyAt(p.categories, matches);
    Any(p.categories, matches)
  }

  /** `filteredPhotos`. */
  function FilteredPhotos(photos: seq<Photo>, selected: string): (r: seq<Photo>)
    ensures selected == AllSentinel ==> r == photos
    ensures selected != AllSentinel ==> forall p :: p in r <==> p in photos && MatchesSelection(p, selected)
  {
    if selected == AllSentinel then photos
    else Filter(photos, (p: Photo) => MatchesSelection(p, selected))
  }

  /** With a selection other than 'all', the visible photos are the matching ones in their list order, each as often as in the list. */
  lemma FilteredKeepsOrder(photos: seq<Photo>, more: seq<Photo>, selected: string, p: Photo)
    requires selected != AllSentinel
    ensures FilteredPhotos(photos + more, selected) == FilteredPhotos(photos, selected) + FilteredPhotos(more, selected)
    ensures multiset(FilteredPhotos(photos, selected))[p] == if MatchesSelection(p, selected) then multiset(photos)[p] else 0
  {
    FilterAppend(photos, more, (q: Photo) => MatchesSelection(q, selected));
    FilterCounts(photos, (q: Photo) => MatchesSelection(q, selected), p);
  }

  /** `photos.flatMap(photo => photo.categories)`. */
  function AllLabels(photos: seq<Photo>): (r: seq<string>)
    ensures forall l :: l in r <==> exists i | 0 <= i < |photos| :: l in photos[i].categories
  {
    if |photos| == 0 then []
    else
      var rest := AllLabels(photos[1..]);
      assert forall i | 1 <= i < |photos| :: photos[1..][i - 1] == photos[i];
      photos[0].categories + rest
  }

  /** `allCategories`: the distinct labels on the photos, ascending. */
  function AllCategories(photos: seq<Photo>): (r: seq<string>)
    ensures StrictlyAscending(r)
    ensures forall l :: l in r <==> exists i | 0 <= i < |photos| :: l in photos[i].categories
  {
    SortedDistinct(AllLabels(photos))
  }

  /** The category list depends only on which photos are present, not on their order or repetition. */
  lemma AllCategoriesOrderFree(photos: seq<Photo>, others: seq<Photo>)
    requires forall p :: p in photos <==> p in others
    ensures AllCategories(photos) == AllCategories(others)
  {
    forall l ensures l in AllLabels(photos) <==> l in AllLabels(others) {
      if l in AllLabels(photos) {
        var i :| 0 <= i < |photos| && l in photos[i].categories;
        assert photos[i] in others;
        var j :| 0 <= j < |others| && others[j] == photos[i];
      }
      if l in AllLabels(others) {
        var j :| 0 <= j < |others| && l in others[j].categories;
        assert others[j] in photos;
        var i :| 0 <= i < |photos| && photos[i] == others[j];
      }
    }
    SortedDistinctOrderFree(AllLabels(photos), AllLabels(others));
  }

  /** The toast events for a sequence of notifications. */
  function Toasts(notes: seq<Notification>): (r: seq<Event>)
    ensures |r| == |notes| && forall i | 0 <= i < |notes| :: r[i] == Toast(notes[i])
  {
    seq(|notes|, i requires 0 <= i < |notes| => Toast(notes[i]))
  }

  /** Every id below `next`, and no id twice. */
  ghost predicate FreshIds(photos: seq<Photo>, next: Id) {
    && (forall i | 0 <= i < |photos| :: photos[i].id < next)
    && (forall i, j | 0 <= i < j < |photos| :: photos[i].id != photos[j].id)
  }

  /** Deletion keeps ids below the counter and distinct. */
  lemma {:induction false} DeleteKeepsFreshIds(photos: seq<Photo>, next: Id, id: Id)
    requires FreshIds(photos, next)
    ensures FreshIds(DeleteById(photos, id), next)
    decreases |photos|
  {
    if |photos| > 0 {
      var tail := photos[1..];
      assert FreshIds(tail, next) by {
        assert forall i | 0 <= i < |tail| :: tail[i] == photos[i + 1];
      }
      DeleteKeepsFreshIds(tail, next, id);
      var rest := DeleteById(tail, id);
      if photos[0].id != id {
        assert DeleteById(photos, id) == [photos[0]] + rest;
        forall q | q in rest ensures q.id != photos[0].id {
          var k :| 0 <= k < |tail| && tail[k] == q;
          assert photos[k + 1] == q;
        }
        FreshIdsCons(photos[0], rest, next);
      } else {
        assert DeleteById(photos, id) == rest;
      }
    }
  }

  /** A photo whose id is below the counter and unused can go in front. */
  lemma FreshIdsCons(p: Photo, rest: seq<Photo>, next: Id)
    requires FreshIds(rest, next) && p.id < next
    requires forall q | q in rest :: q.id != p.id
    ensures FreshIds([p] + rest, next)
  {
    var s := [p] + rest;
    forall i, j | 0 <= i < j < |s| ensures s[i].id != s[j].id {
      assert s[j] == rest[j - 1];
      if i > 0 {
        assert s[i] == rest[i - 1];
      } else {
        assert rest[j - 1] in rest;
      }
    }
  }

  /** One more file runs one more step of the loop. */
  lemma IngestPrefix(files: seq<File>, envs: seq<FileEnv>, start: Batch, i: nat)
    requires |envs| == |files| && i < |files|
    ensures Ingest(files[..i + 1], envs[..i + 1], start) == Step(Ingest(files[..i], envs[..i], start), files[i], envs[i])
  {
    assert files[..i + 1][..i] == files[..i] && envs[..i + 1][..i] == envs[..i];
  }

  lemma ToastsAppend(notes: seq<Notification>, n: Notification)
    ensures Toasts(notes + [n]) == Toasts(notes) + [Toast(n)]
  {
  }

  /** Photos numbered consecutively from the counter can follow photos whose ids are all below it. */
  lemma FreshIdsAppend(photos: seq<Photo>, more: seq<Photo>, next: Id)
    requires FreshIds(photos, next)
    requires forall k | 0 <= k < |more| :: more[k].id == next + k
    ensures FreshIds(photos + more, next + |more|)
  {
    var s := photos + more;
    forall i, j | 0 <= i < j < |s| ensures s[i].id != s[j].id {
      if j >= |photos| {
        assert s[j] == more[j - |photos|];
        if i >= |photos| {
          assert s[i] == more[i - |photos|];
        }
      }
    }
  }

  /** The photos of an upload get fresh, distinct ids. */
  lemma UploadKeepsFreshIds(photos: seq<Photo>, files: seq<File>, envs: seq<FileEnv>, next: Id)
    requires |envs| == |files| && FreshIds(photos, next)
    ensures var b := Ingest(files, envs, Batch([], [], [], next)); FreshIds(photos + b.photos, b.nextId)
  {
    var b := Ingest(files, envs, Batch([], [], [], next));
    IngestPhotos(files, envs, Batch([], [], [], next));
    FreshIdsAppend(photos, b.photos, next);
  }

  /** The gallery component's state. */
  class PhotoGallery {
    var photos: seq<Photo>
    var selectedCategory: string
    var isProcessing: bool
    var log: seq<Event>
    var nextId: Id   // the fresh-id oracle standing for crypto.randomUUID
    const classifier: Classification.ImageClassifier

    /** Between handlers: not processing, the classifier hook is consistent, and ids are fresh and distinct. */
    ghost predicate Valid()
      reads this, classifier
    {
      !isProcessing && !classifier.isLoading && FreshIds(photos, nextId)
    }

    constructor ()
      ensures Valid() && fresh(classifier)
      ensures photos == [] && selectedCategory == AllSentinel && log == [] && classifier.calls == []
    {
      photos := [];
      selectedCategory := AllSentinel;
      isProcessing := false;
      log := [];
      nextId := 0;
      classifier := new Classification.ImageClassifier();
    }

    /** `handleDeletePhoto(photoId)`: filter by id and raise a toast; the selection is left as it is. */
    method HandleDeletePhoto(photoId: Id)
      requires Valid()
      modifies this
      ensures Valid()
      ensures photos == DeleteById(old(photos), photoId)
      ensures log == old(log) + [PhotosCommitted(|photos|), Toast(PhotoDeleted)]
      ensures selectedCategory == old(selectedCategory) && nextId == old(nextId)
    {
      DeleteKeepsFreshIds(photos, nextId, photoId);
      photos := DeleteById(photos, photoId);
      log := log + [PhotosCommitted(|photos|), Toast(PhotoDeleted)];
    }

    /** `setSelectedCategory`, the callback category buttons call: any string is accepted. */
    method SelectCategory(category: string)
      requires Valid()
      modifies this
      ensures Valid()
      ensures selectedCategory == category
      ensures photos == old(photos) && log == old(log) && nextId == old(nextId)
    {
      selectedCategory := category;
    }

    /** `handleFileUpload(files)`; `envs[k]` says how the environment treats `files[k]`. */
    method HandleFileUpload(files: seq<File>, envs: seq<FileEnv>)
      requires Valid() && |envs| == |files|
      modifies this, classifier
      ensures Valid()
      ensures var b := Ingest(files, envs, Batch([], [], [], old(nextId)));
        && photos == old(photos) + b.photos
        && nextId == b.nextId
        && log == old(log) + [ProcessingSet(true)] + Toasts(b.notes) + [PhotosCommitted(|photos|), ProcessingSet(false)]
        && classifier.calls == old(classifier.calls) + b.calls
      ensures selectedCategory == old(selectedCategory)
    {
      isProcessing := true;
      log := log + [ProcessingSet(true)];
      var newPhotos := ProcessFiles(files, envs);
      UploadKeepsFreshIds(photos, files, envs, old(nextId));
      photos := photos + newPhotos;
      log := log + [PhotosCommitted(|photos|)];
      isProcessing := false;
      log := log + [ProcessingSet(false)];
    }

    /** The `for` loop of `handleFileUpload`: every file in turn, collecting the new photos. */
    method ProcessFiles(files: seq<File>, envs: seq<FileEnv>) returns (newPhotos: seq<Photo>)
      requires !classifier.isLoading && |envs| == |files|
      modifies this, classifier
      ensures !classifier.isLoading
      ensures var b := Ingest(files, envs, Batch([], [], [], old(nextId)));
        && newPhotos == b.photos
        && nextId == b.nextId
        && log == old(log) + Toasts(b.notes)
        && classifier.calls == old(classifier.calls) + b.calls
      ensures photos == old(photos) && selectedCategory == old(selectedCategory) && isProcessing == old(isProcessing)
    {
      ghost var start := Batch([], [], [], nextId);
      ghost var b := start;
      newPhotos := [];
      for i := 0 to |files|
        invariant b == Ingest(files[..i], envs[..i], start)
        invariant newPhotos == b.photos && nextId == b.nextId
        invariant log == old(log) + Toasts(b.notes) && classifier.calls == old(classifier.calls) + b.calls
        invariant !classifier.isLoading
        invariant photos == old(photos) && selectedCategory == old(selectedCategory) && isProcessing == old(isProcessing)
      {
        IngestPrefix(files, envs, start, i);
        ToastsAppend(b.notes, NoteFor(files[i], envs[i]));
        b := Step(b, files[i], envs[i]);
        var photo := ProcessFile(files[i], envs[i]);
        if photo.Some? {
          newPhotos := newPhotos + [photo.value];
        }
      }
      assert files[..|files|] == files && envs[..|files|] == envs;
    }

    /**
     * One pass of the upload loop: a non-image file gets "Invalid file type"; an image is read,
     * classified and turned into a photo with the next id; a failed read gets "Error processing image".
     */
    method ProcessFile(file: File, env: FileEnv) returns (photo: Option<Photo>)
      requires !classifier.isLoading
      modifies this, classifier
      ensures !classifier.isLoading
      ensures log == old(log) + [Toast(NoteFor(file, env))]
      ensures IsImage(file) && env.read.Loaded? ==>
        && photo == Some(NewPhoto(old(nextId), file, env.read.dataUrl, Classification.Classify(env.run), env.at))
        && nextId == old(nextId) + 1
        && classifier.calls == old(classifier.calls) + [env.run]
      ensures !IsImage(file) || env.read.ReadFailed? ==>
        photo == None && nextId == old(nextId) && classifier.calls == old(classifier.calls)
      ensures photos == old(photos) && selectedCategory == old(selectedCategory) && isProcessing == old(isProcessing)
    {
      if !IsImage(file) {
        log := log + [Toast(InvalidFileType(file.name))];
        return None;
      }
      match env.read {
        case ReadFailed =>
          log := log + [Toast(ProcessingError(file.name))];
          photo := None;
        case Loaded(src) =>
          var classification := classifier.ClassifyImage(env.run);
          photo := Some(NewPhoto(nextId, file, src, classification, env.at));
          nextId := nextId + 1;
          log := log + [Toast(Categorized(file.name, TopLabel(classification)))];
      }
    }

    /** `handleFileInputChange`: a non-empty selection from the file picker starts an upload. */
    method HandleFileInputChange(files: seq<File>, envs: seq<FileEnv>)
      requires Valid() && |envs| == |files|
      modifies this, classifier
      ensures Valid()
      ensures |files| == 0 ==> unchanged(this) && unchanged(classifier)
      ensures |files| > 0 ==>
        var b := Ingest(files, envs, Batch([], [], [], old(nextId)));
        && photos == old(photos) + b.photos
        && nextId == b.nextId
        && log == old(log) + [ProcessingSet(true)] + Toasts(b.notes) + [PhotosCommitted(|photos|), ProcessingSet(false)]
        && classifier.calls == old(classifier.calls) + b.calls
      ensures selectedCategory == old(selectedCategory)
    {
      if |files| > 0 {
        HandleFileUpload(files, envs);
      }
    }
  }
}
