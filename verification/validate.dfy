/** Rendering of a schema validator's error tree (src/services/validate.service.ts).
    The tree is a record whose `_errors` property lists the messages about the
    node itself and whose other properties are the subtrees of its fields. */
module Validate {
  import opened Text
  import opened Model
  import opened Json
  import opened Utils

  /** `Object.keys` paired with the values: an object's properties, or an
      array's indices written in decimal. */
  function Entries(node: Json): (r: seq<(string, Json)>)
    requires IsRecord(node)
    ensures forall i :: 0 <= i < |r| ==> r[i].1 < node
  {
    if node.JObject? then
      var fields := node.fields;
      assert forall i :: 0 <= i < |fields| ==> fields[i] in fields;
      fields
    else
      var items := node.items;
      assert forall i :: 0 <= i < |items| ==> items[i] in items;
      seq(|items|, i requires 0 <= i < |items| => (NatToString(i), items[i]))
  }

  /** The node's own messages: `_errors` when it is an array with at least one
      element. A missing, null, non-array or empty `_errors` gives none; an
      array node has no `_errors` property at all. */
  function OwnErrors(node: Json): (r: Option<seq<Json>>)
    ensures r.Some? ==> |r.value| > 0
    ensures r.Some? <==> node.JObject? && exists items :: Get(node.fields, "_errors") == Some(JArray(items)) && items != []
  {
    if node.JObject? then
      match Get(node.fields, "_errors")
      case Some(JArray(items)) => if |items| > 0 then Some(items) else None
      case _ => None
    else None
  }

  /** How `Array.prototype.join` prints one element: null prints nothing,
      a nested array is joined with ",", an object is "[object Object]". */
  function ElementText(e: Json): string {
    match e
    case JNull => ""
    case JBool(b) => if b then "true" else "false"
    case JNumber(n) => NumberText(n)
    case JString(s) => s
    case JArray(items) => JoinTexts(items, ",")
    case JObject(_) => "[object Object]"
  }

  /** Integral numbers in decimal; other numbers are not rendered. */
  function NumberText(n: real): string {
    if n.Floor as real != n then ""
    else if n >= 0.0 then NatToString(n.Floor)
    else "-" + NatToString(-n.Floor)
  }

  /** `items.join(sep)`. */
  function JoinTexts(items: seq<Json>, sep: string): string
    decreases items, 0
  {
    if items == [] then ""
    else if |items| == 1 then ElementText(items[0])
    else ElementText(items[0]) + sep + JoinTexts(items[1..], sep)
  }

  /** The line a node emits about itself, if any. */
  function OwnLine(node: Json, path: string): (r: string)
    ensures r == "" <==> OwnErrors(node).None?
    ensures r != "" ==> r == path + ": " + JoinTexts(OwnErrors(node).value, "; ") + "\n"
  {
    match OwnErrors(node)
    case None => ""
    case Some(items) => path + ": " + JoinTexts(items, "; ") + "\n"
  }

  /** The path of a property below `path`: dotted, or the bare key at the root. */
  function ChildPath(path: string, prop: string): (r: string)
    ensures path == "" ==> r == prop
    ensures path != "" ==> r == path + "." + prop
  {
    if path != "" then path + "." + prop else prop
  }

  /** A property the formatter descends into: not `_errors`, and a record. */
  predicate Descends(entry: (string, Json)) {
    entry.0 != "_errors" && IsRecord(entry.1)
  }

  /** `formatZodErrors(formatted, path)`: the node's own line, then the output
      of every record-valued property other than `_errors`, in key order. */
  function FormatZodErrors(node: Json, path: string): string
    requires IsRecord(node)
    decreases node, 1
  {
    OwnLine(node, path) + FormatChildren(node, path, 0)
  }

  /** The `forEach` over the keys, from the `i`-th on. */
  function FormatChildren(node: Json, path: string, i: nat): string
    requires IsRecord(node) && i <= |Entries(node)|
    decreases node, 0, |Entries(node)| - i
  {
    if i == |Entries(node)| then ""
    else
      var entry := Entries(node)[i];
      (if Descends(entry) then FormatZodErrors(entry.1, ChildPath(path, entry.0)) else "")
      + FormatChildren(node, path, i + 1)
  }

  /** Independent of the text: the tree holds a node, reachable through
      record-valued non-`_errors` properties, that has messages of its own. */
  predicate HasErrorSite(node: Json)
    requires IsRecord(node)
    decreases node, 1
  {
    OwnErrors(node).Some? || ChildHasErrorSite(node, 0)
  }

  predicate ChildHasErrorSite(node: Json, i: nat)
    requires IsRecord(node) && i <= |Entries(node)|
    decreases node, 0, |Entries(node)| - i
  {
    if i == |Entries(node)| then false
    else
      var entry := Entries(node)[i];
      (Descends(entry) && HasErrorSite(entry.1)) || ChildHasErrorSite(node, i + 1)
  }

  /** The output is empty exactly when no node of the tree has messages: no
      empty lines and no dropped messages. */
  lemma {:induction false} FormatEmptyIff(node: Json, path: string)
    requires IsRecord(node)
    ensures FormatZodErrors(node, path) == "" <==> !HasErrorSite(node)
    decreases node, 1
  {
    FormatChildrenEmptyIff(node, path, 0);
  }

  lemma {:induction false} FormatChildrenEmptyIff(node: Json, path: string, i: nat)
    requires IsRecord(node) && i <= |Entries(node)|
    ensures FormatChildren(node, path, i) == "" <==> !ChildHasErrorSite(node, i)
    decreases node, 0, |Entries(node)| - i
  {
    if i < |Entries(node)| {
      var entry := Entries(node)[i];
      if Descends(entry) {
        FormatEmptyIff(entry.1, ChildPath(path, entry.0));
      }
      FormatChildrenEmptyIff(node, path, i + 1);
    }
  }

  /** A run of whole lines: empty, or ending in a newline. */
  predicate WholeLines(s: string) {
    s == "" || s[|s| - 1] == '\n'
  }

  /** Two runs of whole lines in a row are a run of whole lines. */
  lemma LinesConcat(a: string, b: string)
    requires WholeLines(a) && WholeLines(b)
    ensures WholeLines(a + b)
  {
    if b == "" {
      assert a + b == a;
    }
  }

  /** The output is a run of whole lines. */
  lemma {:induction false} FormatEndsWithNewline(node: Json, path: string)
    requires IsRecord(node)
    ensures WholeLines(FormatZodErrors(node, path))
    decreases node, 1
  {
    FormatChildrenEndsWithNewline(node, path, 0);
    LinesConcat(OwnLine(node, path), FormatChildren(node, path, 0));
  }

  lemma {:induction false} FormatChildrenEndsWithNewline(node: Json, path: string, i: nat)
    requires IsRecord(node) && i <= |Entries(node)|
    ensures WholeLines(FormatChildren(node, path, i))
    decreases node, 0, |Entries(node)| - i
  {
    if i < |Entries(node)| {
      var entry := Entries(node)[i];
      var rest := FormatChildren(node, path, i + 1);
      FormatChildrenEndsWithNewline(node, path, i + 1);
      if Descends(entry) {
        FormatEndsWithNewline(entry.1, ChildPath(path, entry.0));
        LinesConcat(FormatZodErrors(entry.1, ChildPath(path, entry.0)), rest);
      } else {
        assert "" + rest == rest;
      }
    }
  }

  /** A node whose only property is a one-message `_errors` prints one line. */
  lemma SingleMessage(message: string, path: string)
    ensures FormatZodErrors(JObject([("_errors", JArray([JString(message)]))]), path) == path + ": " + message + "\n"
  {
    var node := JObject([("_errors", JArray([JString(message)]))]);
    assert Get(node.fields, "_errors") == Some(JArray([JString(message)]));
    assert OwnErrors(node) == Some([JString(message)]);
    assert JoinTexts([JString(message)], "; ") == message;
    assert !Descends(Entries(node)[0]);
    assert FormatChildren(node, path, 1) == "";
  }

  /** Messages on the root itself are printed after an empty path: ": ...". */
  lemma RootMessage(message: string)
    ensures FormatZodErrors(JObject([("_errors", JArray([JString(message)]))]), "") == ": " + message + "\n"
  {
    SingleMessage(message, "");
  }

  /** A message on the first element of a `files` array is reported under the
      path "files.0"; empty `_errors` arrays on the way emit nothing. */
  lemma NestedMessage(message: string)
    ensures
      var leaf := JObject([("_errors", JArray([JString(message)]))]);
      var files := JObject([("_errors", JArray([])), ("0", leaf)]);
      FormatZodErrors(JObject([("_errors", JArray([])), ("files", files)]), "") == "files.0: " + message + "\n"
  {
    var leaf := JObject([("_errors", JArray([JString(message)]))]);
    var files := JObject([("_errors", JArray([])), ("0", leaf)]);
    var root := JObject([("_errors", JArray([])), ("files", files)]);
    SingleMessage(message, "files.0");
    assert ChildPath("files", "0") == "files.0";
    assert Descends(Entries(files)[1]);
    assert FormatChildren(files, "files", 2) == "";
    assert FormatChildren(files, "files", 1) == "files.0: " + message + "\n";
    assert FormatChildren(files, "files", 0) == "files.0: " + message + "\n";
    assert !Descends(Entries(files)[0]);
    assert Get(files.fields, "_errors") == Some(JArray([]));
    assert OwnLine(files, "files") == "";
    assert FormatZodErrors(files, "files") == "files.0: " + message + "\n";
    assert Descends(Entries(root)[1]);
    assert !Descends(Entries(root)[0]);
    assert FormatChildren(root, "", 2) == "";
    assert Get(root.fields, "_errors") == Some(JArray([]));
    assert OwnLine(root, "") == "";
    assert ChildPath("", "files") == "files";
    assert FormatChildren(root, "", 1) == "files.0: " + message + "\n";
    assert FormatChildren(root, "", 0) == "files.0: " + message + "\n";
  }

  /** The outcome of a schema's `safeParse`: the data, or the formatted error
      tree. */
  datatype SafeParse = ParseSuccess(data: Json) | ParseFailure(formatted: Json)

  /** `assertNoZodErrors`: a failed parse throws a StorageError whose message
      is the rendered error tree. */
  function AssertNoZodErrors(parsed: SafeParse): (r: Outcome<Json>)
    requires parsed.ParseFailure? ==> IsRecord(parsed.formatted)
    ensures r.Done? <==> parsed.ParseSuccess?
    ensures r.Done? ==> r.value == parsed.data
    ensures r.Failed? ==> r.error == StorageError(FormatZodErrors(parsed.formatted, ""))
  {
    match parsed
    case ParseSuccess(data) => Done(data)
    case ParseFailure(formatted) => Failed(StorageError(FormatZodErrors(formatted, "")))
  }
}
