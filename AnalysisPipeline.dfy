/**
 * The upload key of a capture and the cascade of image-analysis calls.
 *
 * The remote services are not modelled: every reply the cascade may need is
 * an input (`Replies`), either the data the service returned or `Raised`
 * when the call raised. The cascade returns the calls it made, in order,
 * and the record it persisted, if it got that far.
 */
module AnalysisPipeline {
  import Text

  datatype Option<T> = None | Some(value: T)

  const Bucket := "<YOUR_S3_BUCKET>"
  const ImageKeyPrefix := "pizero/image-"
  const ImageKeySuffix := ".jpg"
  const SeenKey := "pizero/seen.json"
  const CollectionId := "security-camera"
  const MaxLabels: nat := 5
  const MinConfidence: nat := 70

  /** The substring a label name must contain for faces to be looked for. */
  const PersonMarker := "Person"

  /** The object key an uploaded capture is stored under, for a `%Y%m%d%H%M%S` timestamp. */
  function ImageKey(timestamp: string): (key: string)
    ensures ImageKeyPrefix <= key
    ensures |key| == |ImageKeyPrefix| + |timestamp| + |ImageKeySuffix|
    ensures key[|key| - |ImageKeySuffix|..] == ImageKeySuffix
  {
    ImageKeyPrefix + timestamp + ImageKeySuffix
  }

  predicate IsImageKey(key: string)
  {
    |key| >= |ImageKeyPrefix| + |ImageKeySuffix|
    && ImageKeyPrefix <= key && key[|key| - |ImageKeySuffix|..] == ImageKeySuffix
  }

  /** The timestamp an image key was made from. */
  function TimestampOf(key: string): (timestamp: string)
    requires IsImageKey(key)
    ensures |timestamp| == |key| - |ImageKeyPrefix| - |ImageKeySuffix|
  {
    key[|ImageKeyPrefix|..|key| - |ImageKeySuffix|]
  }

  /** Every image key gives back its timestamp, so distinct timestamps never share a key. */
  lemma ImageKeyRoundTrip(timestamp: string, other: string)
    ensures IsImageKey(ImageKey(timestamp)) && TimestampOf(ImageKey(timestamp)) == timestamp
    ensures ImageKey(timestamp) == ImageKey(other) ==> timestamp == other
  {
    var key := ImageKey(timestamp);
    assert key[|ImageKeyPrefix|..|key| - |ImageKeySuffix|] == timestamp;
    var key' := ImageKey(other);
    assert key'[|ImageKeyPrefix|..|key'| - |ImageKeySuffix|] == other;
  }

  /** A JSON fragment returned by the analysis service, kept opaque. */
  datatype Blob = Blob(json: string)

  /** A detected label: its name decides the cascade, the rest is opaque. */
  datatype Label = Label(name: string, details: Blob)

  /** What a remote call gave back: its data, or an exception. */
  datatype Reply<T> = Ok(value: T) | Raised

  /** The replies of the four analysis calls for one image. */
  datatype Replies = Replies(
    labels: Reply<seq<Label>>,
    faces: Reply<seq<Blob>>,
    celebrities: Reply<seq<Blob>>,
    matches: Reply<seq<Blob>>)

  /** The remote calls the cascade makes. Images are named by their key in the bucket. */
  datatype Call =
    | DetectLabels(image: string, maxLabels: nat, minConfidence: nat)
    | DetectFaces(image: string)
    | RecognizeCelebrities(image: string)
    | SearchFacesByImage(collection: string, image: string)
    | PutSeen(bucket: string, key: string)

  /** The keys of the persisted "last seen" record. */
  datatype Field = Image | Labels | FaceDetails | CelebrityFaces | FaceMatches

  datatype Entry = S3Object(bucket: string, key: string) | LabelList(labels: seq<Label>) | Items(items: seq<Blob>)

  type Seen = map<Field, Entry>

  /** Whether some label's name contains "Person" (case-sensitive). */
  predicate MentionsPerson(labels: seq<Label>)
  {
    exists i | 0 <= i < |labels| :: Text.Contains(labels[i].name, PersonMarker)
  }

  /** The analysis stages in the order the cascade runs them; each run is a prefix of it. */
  function StageOrder(key: string): seq<Call>
  {
    [DetectLabels(key, MaxLabels, MinConfidence), DetectFaces(key),
     RecognizeCelebrities(key), SearchFacesByImage(CollectionId, key)]
  }

  /** No call the cascade makes for these replies raises. */
  predicate Completes(r: Replies)
  {
    r.labels.Ok?
    && (MentionsPerson(r.labels.value) ==>
          r.faces.Ok? && (|r.faces.value| > 0 ==> r.celebrities.Ok? && r.matches.Ok?))
  }

  /**
   * Analyse the uploaded image `key`: detect labels; if a label names a
   * person, detect faces; if there is a face, recognise celebrities and
   * search the collection for known faces; then overwrite the "last seen"
   * record with what was gathered. A raising call ends the analysis and
   * nothing is persisted.
   */
  method AnalyseImage(key: string, r: Replies) returns (calls: seq<Call>, persisted: Option<Seen>)
    // the stages always start with label detection and run in the fixed order
    ensures |calls| >= 1 && calls[0] == DetectLabels(key, MaxLabels, MinConfidence)
    ensures persisted.None? ==> calls <= StageOrder(key)
    ensures persisted.Some? ==>
      |calls| >= 2 && calls[..|calls| - 1] <= StageOrder(key) && calls[|calls| - 1] == PutSeen(Bucket, SeenKey)
    // the record is written, as the last call, exactly when no call raised
    ensures persisted.Some? <==> Completes(r)
    // gating of the later stages
    ensures DetectFaces(key) in calls <==> r.labels.Ok? && MentionsPerson(r.labels.value)
    ensures RecognizeCelebrities(key) in calls <==>
      DetectFaces(key) in calls && r.faces.Ok? && |r.faces.value| > 0
    ensures SearchFacesByImage(CollectionId, key) in calls <==>
      RecognizeCelebrities(key) in calls && r.celebrities.Ok?
    // shape and contents of the persisted record
    ensures persisted.Some? ==>
      var seen := persisted.value;
      && Image in seen && seen[Image] == S3Object(Bucket, key)
      && Labels in seen && seen[Labels] == LabelList(r.labels.value)
      && (FaceDetails in seen <==> MentionsPerson(r.labels.value))
      && (FaceDetails in seen ==> seen[FaceDetails] == Items(r.faces.value))
      && (CelebrityFaces in seen <==> FaceDetails in seen && |r.faces.value| > 0)
      && (CelebrityFaces in seen ==> seen[CelebrityFaces] == Items(r.celebrities.value))
      && (FaceMatches in seen <==> CelebrityFaces in seen)
      && (FaceMatches in seen ==> seen[FaceMatches] == Items(r.matches.value))
      && seen.Keys in {{Image, Labels}, {Image, Labels, FaceDetails},
                       {Image, Labels, FaceDetails, CelebrityFaces, FaceMatches}}
  {
    persisted := None;
    var seen: Seen := map[Image := S3Object(Bucket, key)];
    calls := [DetectLabels(key, MaxLabels, MinConfidence)];
    if r.labels.Raised? {
      return;
    }
    var labels := r.labels.value;
    seen := seen[Labels := LabelList(labels)];
    if MentionsPerson(labels) {
      calls := calls + [DetectFaces(key)];
      if r.faces.Raised? {
        return;
      }
      var faces := r.faces.value;
      seen := seen[FaceDetails := Items(faces)];
      if |faces| > 0 {
        calls := calls + [RecognizeCelebrities(key)];
        if r.celebrities.Raised? {
          return;
        }
        seen := seen[CelebrityFaces := Items(r.celebrities.value)];
        calls := calls + [SearchFacesByImage(CollectionId, key)];
        if r.matches.Raised? {
          return;
        }
        seen := seen[FaceMatches := Items(r.matches.value)];
        assert seen.Keys == {Image, Labels, FaceDetails, CelebrityFaces, FaceMatches};
      } else {
        assert seen.Keys == {Image, Labels, FaceDetails};
      }
    } else {
      assert seen.Keys == {Image, Labels};
    }
    calls := calls + [PutSeen(Bucket, SeenKey)];
    persisted := Some(seen);
  }

  /** A label named exactly "Person", or one that only starts with it, counts as a person. */
  lemma PersonMarkerMatches(d: Blob)
    ensures MentionsPerson([Label("Person", d)])
    ensures MentionsPerson([Label("Tree", d), Label("Personal Computer", d)])
  {
    assert Text.OccursAt(PersonMarker, "Person", 0);
    assert Text.Contains([Label("Person", d)][0].name, PersonMarker);
    assert Text.OccursAt(PersonMarker, "Personal Computer", 0);
    assert Text.Contains([Label("Tree", d), Label("Personal Computer", d)][1].name, PersonMarker);
  }

  /** The test is case-sensitive: a label named "person" does not count. */
  lemma PersonMarkerIsCaseSensitive(d: Blob)
    ensures !MentionsPerson([Label("person", d)])
  {
    assert !Text.OccursAt(PersonMarker, "person", 0) by {
      assert "person"[0] != PersonMarker[0];
    }
    assert !Text.Contains("person", PersonMarker);
  }
}
