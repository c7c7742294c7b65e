/** The declared shapes of the two JSON documents (src/schemas/audipomark.schema.ts,
    src/schemas/config.schema.ts), as predicates over parsed JSON, together with
    the encoding of the model's values as JSON and the decoding back. */
module Schema {
  import opened Model
  import opened Json

  predicate RequiredNumber(fields: seq<(string, Json)>, key: string) {
    Get(fields, key).Some? && Get(fields, key).value.JNumber?
  }

  predicate RequiredString(fields: seq<(string, Json)>, key: string) {
    Get(fields, key).Some? && Get(fields, key).value.JString?
  }

  /** `.optional()`: absent, or present with the type (null is not accepted). */
  predicate OptionalNumber(fields: seq<(string, Json)>, key: string) {
    Get(fields, key).None? || Get(fields, key).value.JNumber?
  }

  predicate OptionalString(fields: seq<(string, Json)>, key: string) {
    Get(fields, key).None? || Get(fields, key).value.JString?
  }

  const MarkKeys: set<string> := {"id", "pos", "followingRangeState", "state", "tag", "type"}
  const FileKeys: set<string> := {"fileSize", "filepath", "marklist"}
  const StorageKeys: set<string> := {"externalStorageDirectory", "files"}
  const ConfigKeys: set<string> := {"ffmpeg"}

  /** `schemaAudipoMark`: strict object, numeric `id` and `pos`. */
  predicate MarkShape(v: Json) {
    && v.JObject?
    && KeysWithin(v.fields, MarkKeys)
    && RequiredNumber(v.fields, "id")
    && RequiredNumber(v.fields, "pos")
    && OptionalNumber(v.fields, "followingRangeState")
    && OptionalNumber(v.fields, "state")
    && OptionalString(v.fields, "tag")
    && OptionalNumber(v.fields, "type")
  }

  predicate AllMarkShape(items: seq<Json>) {
    forall i :: 0 <= i < |items| ==> MarkShape(items[i])
  }

  /** `schemaAudipoMarksFile`: strict object with a list of valid marks. */
  predicate FileShape(v: Json) {
    && v.JObject?
    && KeysWithin(v.fields, FileKeys)
    && RequiredNumber(v.fields, "fileSize")
    && RequiredString(v.fields, "filepath")
    && Get(v.fields, "marklist").Some?
    && Get(v.fields, "marklist").value.JArray?
    && AllMarkShape(Get(v.fields, "marklist").value.items)
  }

  predicate AllFileShape(items: seq<Json>) {
    forall i :: 0 <= i < |items| ==> FileShape(items[i])
  }

  /** `schemaAudipoMarksStorage`: strict object with a list of valid files. */
  predicate StorageShape(v: Json) {
    && v.JObject?
    && KeysWithin(v.fields, StorageKeys)
    && RequiredString(v.fields, "externalStorageDirectory")
    && Get(v.fields, "files").Some?
    && Get(v.fields, "files").value.JArray?
    && AllFileShape(Get(v.fields, "files").value.items)
  }

  /** `schemaAudipoMarksConfig`: the top level is strict, the inner `ffmpeg`
      object is not, so extra keys inside it pass. */
  predicate ConfigShape(v: Json) {
    && v.JObject?
    && KeysWithin(v.fields, ConfigKeys)
    && Get(v.fields, "ffmpeg").Some?
    && Get(v.fields, "ffmpeg").value.JObject?
    && RequiredNumber(Get(v.fields, "ffmpeg").value.fields, "duration")
    && RequiredNumber(Get(v.fields, "ffmpeg").value.fields, "noise")
  }

  // ---------------------------------------------------------------- facts about the shapes

  /** One invalid mark anywhere invalidates the whole storage. */
  lemma StorageNeedsEveryMark(v: Json, i: int, j: int)
    requires StorageShape(v)
    requires 0 <= i < |Get(v.fields, "files").value.items|
    ensures
      var file := Get(v.fields, "files").value.items[i];
      0 <= j < |Get(file.fields, "marklist").value.items| ==> MarkShape(Get(file.fields, "marklist").value.items[j])
  {
  }

  /** A key outside the declared ones is rejected. */
  lemma MarkExtraKeyRejected()
    ensures !MarkShape(JObject([("id", JNumber(1.0)), ("pos", JNumber(0.0)), ("color", JString("red"))]))
  {
    var fields := [("id", JNumber(1.0)), ("pos", JNumber(0.0)), ("color", JString("red"))];
    assert fields[2].0 !in MarkKeys;
  }

  /** A mark without `pos` is rejected. */
  lemma MarkMissingPosRejected()
    ensures !MarkShape(JObject([("id", JNumber(1.0))]))
  {
    assert Get([("id", JNumber(1.0))], "pos") == None;
  }

  /** `id` and `pos` need only be numbers: fractions and negatives pass. */
  lemma MarkFractionalAccepted()
    ensures MarkShape(JObject([("id", JNumber(1.5)), ("pos", JNumber(-3.0))]))
  {
    var fields := [("id", JNumber(1.5)), ("pos", JNumber(-3.0))];
    assert Get(fields, "id") == Some(JNumber(1.5));
    assert Get(fields, "pos") == Some(JNumber(-3.0));
    assert Get(fields, "followingRangeState") == None;
    assert Get(fields, "state") == None;
    assert Get(fields, "tag") == None;
    assert Get(fields, "type") == None;
  }

  /** An optional field given as null is rejected. */
  lemma MarkNullTagRejected()
    ensures !MarkShape(JObject([("id", JNumber(1.0)), ("pos", JNumber(0.0)), ("tag", JNull)]))
  {
    var fields := [("id", JNumber(1.0)), ("pos", JNumber(0.0)), ("tag", JNull)];
    assert Get(fields, "tag") == Some(JNull);
  }

  /** Extra keys inside `ffmpeg` pass; an extra key beside `ffmpeg` does not;
      a missing `noise` does not. */
  lemma ConfigStrictness()
    ensures ConfigShape(JObject([("ffmpeg", JObject([("duration", JNumber(1000.0)), ("noise", JNumber(50.0)), ("extra", JNull)]))]))
    ensures !ConfigShape(JObject([("ffmpeg", JObject([("duration", JNumber(1000.0)), ("noise", JNumber(50.0))])), ("extra", JNull)]))
    ensures !ConfigShape(JObject([("ffmpeg", JObject([("duration", JNumber(1000.0))]))]))
  {
    var inner := [("duration", JNumber(1000.0)), ("noise", JNumber(50.0)), ("extra", JNull)];
    assert Get(inner, "duration") == Some(JNumber(1000.0));
    assert Get(inner, "noise") == Some(JNumber(50.0));
    var outer := [("ffmpeg", JObject([("duration", JNumber(1000.0)), ("noise", JNumber(50.0))])), ("extra", JNull)];
    assert outer[1].0 !in ConfigKeys;
    assert Get([("duration", JNumber(1000.0))], "noise") == None;
  }

  // ---------------------------------------------------------------- encoding and decoding

  function Int(n: int): Json {
    JNumber(n as real)
  }

  function OptField(key: string, v: Option<int>): seq<(string, Json)> {
    if v.Some? then [(key, Int(v.value))] else []
  }

  function OptTagField(v: Option<string>): seq<(string, Json)> {
    if v.Some? then [("tag", JString(v.value))] else []
  }

  function EncodeMark(m: Mark): Json {
    JObject([("id", Int(m.id)), ("pos", Int(m.pos))]
      + (OptField("followingRangeState", m.followingRangeState)
      + (OptField("state", m.state)
      + (OptTagField(m.tag)
      + OptField("type", m.markType)))))
  }

  function EncodeMarks(marks: seq<Mark>): (r: seq<Json>)
    ensures |r| == |marks| && forall i :: 0 <= i < |r| ==> r[i] == EncodeMark(marks[i])
  {
    if marks == [] then [] else [EncodeMark(marks[0])] + EncodeMarks(marks[1..])
  }

  function EncodeFile(f: AudioFile): Json {
    JObject([("fileSize", Int(f.fileSize)), ("filepath", JString(f.filepath)), ("marklist", JArray(EncodeMarks(f.marklist)))])
  }

  function EncodeFiles(files: seq<AudioFile>): (r: seq<Json>)
    ensures |r| == |files| && forall i :: 0 <= i < |r| ==> r[i] == EncodeFile(files[i])
  {
    if files == [] then [] else [EncodeFile(files[0])] + EncodeFiles(files[1..])
  }

  /** The document `JSON.stringify` writes for a storage. */
  function EncodeStorage(s: Storage): Json {
    JObject([("externalStorageDirectory", JString(s.externalStorageDirectory)), ("files", JArray(EncodeFiles(s.files)))])
  }

  /** The document written for a configuration. */
  function EncodeConfig(c: Config): Json {
    JObject([("ffmpeg", JObject([("duration", Int(c.ffmpeg.duration)), ("noise", Int(c.ffmpeg.noise))]))])
  }

  /** An integral JSON number. */
  function AsInt(v: Json): Option<int> {
    if v.JNumber? && v.n.Floor as real == v.n then Some(v.n.Floor) else None
  }

  /** An optional integral field: `Some(None)` when absent, `None` when present
      but not an integral number. */
  function OptInt(fields: seq<(string, Json)>, key: string): Option<Option<int>> {
    match Get(fields, key)
    case None => Some(None)
    case Some(v) => if AsInt(v).Some? then Some(Some(AsInt(v).value)) else None
  }

  /** A valid mark whose numbers are integral, as a model value. */
  function DecodeMark(v: Json): (r: Option<Mark>)
    ensures r.Some? ==> MarkShape(v)
  {
    if !MarkShape(v) then None
    else
      var id := AsInt(Get(v.fields, "id").value);
      var pos := AsInt(Get(v.fields, "pos").value);
      var frs := OptInt(v.fields, "followingRangeState");
      var state := OptInt(v.fields, "state");
      var mt := OptInt(v.fields, "type");
      var tag := if Get(v.fields, "tag").Some? then Some(Get(v.fields, "tag").value.s) else None;
      if id.Some? && pos.Some? && frs.Some? && state.Some? && mt.Some? then
        Some(Mark(id.value, pos.value, frs.value, state.value, tag, mt.value))
      else None
  }

  function DecodeMarks(items: seq<Json>): (r: Option<seq<Mark>>)
    ensures r.Some? ==> AllMarkShape(items) && |r.value| == |items|
  {
    if items == [] then Some([])
    else
      match (DecodeMark(items[0]), DecodeMarks(items[1..]))
      case (Some(m), Some(ms)) =>
        assert forall i :: 1 <= i < |items| ==> items[i] == items[1..][i - 1];
        Some([m] + ms)
      case _ => None
  }

  function DecodeFile(v: Json): (r: Option<AudioFile>)
    ensures r.Some? ==> FileShape(v)
  {
    if !FileShape(v) then None
    else
      var size := AsInt(Get(v.fields, "fileSize").value);
      var marks := DecodeMarks(Get(v.fields, "marklist").value.items);
      if size.Some? && marks.Some? then
        Some(AudioFile(size.value, Get(v.fields, "filepath").value.s, marks.value))
      else None
  }

  function DecodeFiles(items: seq<Json>): (r: Option<seq<AudioFile>>)
    ensures r.Some? ==> AllFileShape(items) && |r.value| == |items|
  {
    if items == [] then Some([])
    else
      match (DecodeFile(items[0]), DecodeFiles(items[1..]))
      case (Some(f), Some(fs)) =>
        assert forall i :: 1 <= i < |items| ==> items[i] == items[1..][i - 1];
        Some([f] + fs)
      case _ => None
  }

  /** A document that passes the storage schema and carries integral numbers. */
  function DecodeStorage(v: Json): (r: Option<Storage>)
    ensures r.Some? ==> StorageShape(v)
  {
    if !StorageShape(v) then None
    else
      var files := DecodeFiles(Get(v.fields, "files").value.items);
      if files.Some? then Some(Storage(Get(v.fields, "externalStorageDirectory").value.s, files.value)) else None
  }

  /** A document that passes the config schema and carries integral numbers;
      unknown keys inside `ffmpeg` are dropped, as the schema strips them. */
  function DecodeConfig(v: Json): (r: Option<Config>)
    ensures r.Some? ==> ConfigShape(v)
  {
    if !ConfigShape(v) then None
    else
      var inner := Get(v.fields, "ffmpeg").value.fields;
      var duration := AsInt(Get(inner, "duration").value);
      var noise := AsInt(Get(inner, "noise").value);
      if duration.Some? && noise.Some? then Some(Config(FfmpegConfig(duration.value, noise.value))) else None
  }

  lemma {:induction false} GetAppend(a: seq<(string, Json)>, b: seq<(string, Json)>, key: string)
    ensures Get(a + b, key) == if Get(a, key).Some? then Get(a, key) else Get(b, key)
    decreases |a|
  {
    if a != [] {
      assert (a + b)[1..] == a[1..] + b;
      GetAppend(a[1..], b, key);
    } else {
      assert a + b == b;
    }
  }

  lemma GetCons(x: (string, Json), rest: seq<(string, Json)>, key: string)
    ensures Get([x] + rest, key) == if x.0 == key then Some(x.1) else Get(rest, key)
  {
    assert ([x] + rest)[1..] == rest;
  }

  lemma GetSingle(x: (string, Json), key: string)
    ensures Get([x], key) == if x.0 == key then Some(x.1) else None
  {
    GetCons(x, [], key);
    assert [x] + [] == [x];
  }

  lemma AsIntInt(n: int)
    ensures AsInt(Int(n)) == Some(n)
  {
  }

  /** The property names are pairwise different. */
  lemma KeysDistinct()
    ensures "id" != "pos" && "id" != "followingRangeState" && "id" != "state" && "id" != "tag" && "id" != "type"
    ensures "pos" != "followingRangeState" && "pos" != "state" && "pos" != "tag" && "pos" != "type"
    ensures "followingRangeState" != "state" && "followingRangeState" != "tag" && "followingRangeState" != "type"
    ensures "state" != "tag" && "state" != "type" && "tag" != "type"
    ensures "fileSize" != "filepath" && "fileSize" != "marklist" && "filepath" != "marklist"
    ensures "externalStorageDirectory" != "files" && "duration" != "noise"
  {
    assert "id"[0] != "pos"[0] && "id"[0] != "state"[0] && "id"[0] != "tag"[0] && "id"[0] != "type"[0];
    assert "pos"[0] != "tag"[0] && "pos"[0] != "type"[0] && "state"[0] != "tag"[0] && "state"[0] != "type"[0];
    assert "fileSize"[4] != "filepath"[4] && "fileSize"[0] != "marklist"[0] && "filepath"[0] != "marklist"[0];
    assert "duration"[0] != "noise"[0];
  }

  /** The value the encoding of `m` gives property `k`. */
  function MarkField(m: Mark, k: string): Option<Json> {
    if k == "id" then Some(Int(m.id))
    else if k == "pos" then Some(Int(m.pos))
    else if k == "followingRangeState" then (if m.followingRangeState.Some? then Some(Int(m.followingRangeState.value)) else None)
    else if k == "state" then (if m.state.Some? then Some(Int(m.state.value)) else None)
    else if k == "tag" then (if m.tag.Some? then Some(JString(m.tag.value)) else None)
    else if k == "type" then (if m.markType.Some? then Some(Int(m.markType.value)) else None)
    else None
  }

  lemma EncodeMarkGet(m: Mark, k: string)
    requires k in MarkKeys
    ensures Get(EncodeMark(m).fields, k) == MarkField(m, k)
  {
    KeysDistinct();
    var a := [("id", Int(m.id)), ("pos", Int(m.pos))];
    GetThrough(a, OptField("followingRangeState", m.followingRangeState), OptField("state", m.state),
      OptTagField(m.tag), OptField("type", m.markType), k);
    GetIdPos(m.id, m.pos, k);
    GetOptField("followingRangeState", m.followingRangeState, k);
    GetOptField("state", m.state, k);
    GetOptTagField(m.tag, k);
    GetOptField("type", m.markType, k);
  }

  lemma GetIdPos(id: int, pos: int, k: string)
    ensures Get([("id", Int(id)), ("pos", Int(pos))], k)
      == if k == "id" then Some(Int(id)) else if k == "pos" then Some(Int(pos)) else None
  {
    var a := [("id", Int(id)), ("pos", Int(pos))];
    GetCons(a[0], [a[1]], k);
    assert a == [a[0]] + [a[1]];
    GetSingle(a[1], k);
  }

  lemma GetOptField(key: string, v: Option<int>, k: string)
    ensures Get(OptField(key, v), k) == if k == key && v.Some? then Some(Int(v.value)) else None
  {
    if v.Some? { GetSingle((key, Int(v.value)), k); }
  }

  lemma GetOptTagField(v: Option<string>, k: string)
    ensures Get(OptTagField(v), k) == if k == "tag" && v.Some? then Some(JString(v.value)) else None
  {
    if v.Some? { GetSingle(("tag", JString(v.value)), k); }
  }

  lemma EncodeMarkFields(m: Mark)
    ensures KeysWithin(EncodeMark(m).fields, MarkKeys)
    ensures forall k :: k in MarkKeys ==> Get(EncodeMark(m).fields, k) == MarkField(m, k)
  {
    forall k | k in MarkKeys ensures Get(EncodeMark(m).fields, k) == MarkField(m, k) {
      EncodeMarkGet(m, k);
    }
  }

  lemma GetThrough(a: seq<(string, Json)>, b: seq<(string, Json)>, c: seq<(string, Json)>,
                   d: seq<(string, Json)>, e: seq<(string, Json)>, k: string)
    ensures Get(a + (b + (c + (d + e))), k) ==
        if Get(a, k).Some? then Get(a, k)
        else if Get(b, k).Some? then Get(b, k)
        else if Get(c, k).Some? then Get(c, k)
        else if Get(d, k).Some? then Get(d, k)
        else Get(e, k)
  {
    GetAppend(d, e, k);
    GetAppend(c, d + e, k);
    GetAppend(b, c + (d + e), k);
    GetAppend(a, b + (c + (d + e)), k);
  }

  /** Every mark the tool writes passes the mark schema and reads back as the
      same mark. */
  lemma DecodeEncodeMark(m: Mark)
    ensures MarkShape(EncodeMark(m)) && DecodeMark(EncodeMark(m)) == Some(m)
  {
    EncodeMarkFields(m);
    KeysDistinct();
    assert "id" in MarkKeys && "pos" in MarkKeys && "followingRangeState" in MarkKeys;
    assert "state" in MarkKeys && "tag" in MarkKeys && "type" in MarkKeys;
    AsIntInt(m.id);
    AsIntInt(m.pos);
  }

  lemma {:induction false} DecodeEncodeMarks(marks: seq<Mark>)
    ensures DecodeMarks(EncodeMarks(marks)) == Some(marks)
    decreases |marks|
  {
    if marks != [] {
      DecodeEncodeMark(marks[0]);
      assert EncodeMarks(marks)[1..] == EncodeMarks(marks[1..]);
      DecodeEncodeMarks(marks[1..]);
      assert [marks[0]] + marks[1..] == marks;
    }
  }

  lemma DecodeEncodeFile(f: AudioFile)
    ensures FileShape(EncodeFile(f)) && DecodeFile(EncodeFile(f)) == Some(f)
  {
    KeysDistinct();
    var fields := EncodeFile(f).fields;
    GetCons(fields[0], fields[1..], "marklist");
    GetCons(fields[1], fields[2..], "marklist");
    GetSingle(fields[2], "marklist");
    assert fields[1..] == [fields[1]] + fields[2..];
    assert fields == [fields[0]] + fields[1..];
    assert Get(fields, "fileSize") == Some(Int(f.fileSize));
    assert Get(fields, "filepath") == Some(JString(f.filepath));
    assert Get(fields, "marklist") == Some(JArray(EncodeMarks(f.marklist)));
    DecodeEncodeMarks(f.marklist);
    AsIntInt(f.fileSize);
  }

  lemma {:induction false} DecodeEncodeFiles(files: seq<AudioFile>)
    ensures DecodeFiles(EncodeFiles(files)) == Some(files)
    decreases |files|
  {
    if files != [] {
      DecodeEncodeFile(files[0]);
      assert EncodeFiles(files)[1..] == EncodeFiles(files[1..]);
      DecodeEncodeFiles(files[1..]);
      assert [files[0]] + files[1..] == files;
    }
  }

  /** Every storage the tool writes passes its own schema and reads back
      unchanged: `split` output can be joined, `join` output can be split. */
  lemma DecodeEncodeStorage(s: Storage)
    ensures StorageShape(EncodeStorage(s)) && DecodeStorage(EncodeStorage(s)) == Some(s)
  {
    KeysDistinct();
    var fields := EncodeStorage(s).fields;
    assert Get(fields, "externalStorageDirectory") == Some(JString(s.externalStorageDirectory));
    assert Get(fields, "files") == Some(JArray(EncodeFiles(s.files)));
    DecodeEncodeFiles(s.files);
  }

  /** Every configuration `mark` writes passes the config schema and reads
      back unchanged. */
  lemma DecodeEncodeConfig(c: Config)
    ensures ConfigShape(EncodeConfig(c)) && DecodeConfig(EncodeConfig(c)) == Some(c)
  {
    KeysDistinct();
    var inner := [("duration", Int(c.ffmpeg.duration)), ("noise", Int(c.ffmpeg.noise))];
    assert Get(inner, "duration") == Some(Int(c.ffmpeg.duration));
    assert Get(inner, "noise") == Some(Int(c.ffmpeg.noise));
    AsIntInt(c.ffmpeg.duration);
    AsIntInt(c.ffmpeg.noise);
  }
}
