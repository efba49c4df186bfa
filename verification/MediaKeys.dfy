/**
 Object keys of generated media files. A display or preview key is the source key with its extension
 replaced by a suffix that carries the attempt id, so the id can be read back from the key alone.
 */
module MediaKeys {
  import opened Options
  import opened Sequences

  /** The two preview sizes, by longest edge. */
  datatype Edge = Edge480 | Edge800

  const UUID_LENGTH := 36

  /** What `randomUUID` yields, as far as keys are concerned. */
  predicate ValidAttemptId(a: string) {
    |a| == UUID_LENGTH && '_' !in a
  }

  /** The index of the last dot when a non-empty extension follows it. */
  function ExtensionStart(key: string): (r: Option<nat>)
    ensures r.Some? ==> r.value + 1 < |key| && key[r.value] == '.' && '.' !in key[r.value + 1..]
  {
    LastDot(key, |key|)
  }

  function LastDot(key: string, n: nat): (r: Option<nat>)
    requires n <= |key| && '.' !in key[n..]
    ensures r.Some? ==> r.value + 1 < |key| && key[r.value] == '.' && '.' !in key[r.value + 1..]
  {
    if n == 0 then None
    else if key[n - 1] == '.' then
      if n < |key| then Some(n - 1) else None
    else
      assert key[n - 1..] == [key[n - 1]] + key[n..];
      LastDot(key, n - 1)
  }

  predicate HasExtension(key: string) {
    ExtensionStart(key).Some?
  }

  /** A key without an extension is returned unchanged, as the regular expression replacement does. */
  function WithSuffix(key: string, suffix: string): string {
    match ExtensionStart(key)
    case Some(i) => key[..i] + suffix
    case None => key
  }

  function DisplayName(key: string, a: string): string {
    WithSuffix(key, "_display_v1_" + a + ".webp")
  }

  function EdgeName(e: Edge): string {
    match e
    case Edge480 => "_480"
    case Edge800 => "_800"
  }

  function PreviewName(key: string, a: string, e: Edge): string {
    WithSuffix(key, "_preview_v1_" + a + EdgeName(e) + ".webp")
  }

  predicate EndsWith(s: string, suffix: string) {
    |suffix| <= |s| && s[|s| - |suffix|..] == suffix
  }

  predicate IsDisplayName(k: string) {
    EndsWith(k, ".webp") &&
    var body := k[..|k| - 5];
    |body| >= UUID_LENGTH && EndsWith(body[..|body| - UUID_LENGTH], "_display_v1_")
  }

  predicate IsPreviewName(k: string) {
    EndsWith(k, ".webp") &&
    var body := k[..|k| - 5];
    (EndsWith(body, "_480") || EndsWith(body, "_800")) &&
    var named := body[..|body| - 4];
    |named| >= UUID_LENGTH && EndsWith(named[..|named| - UUID_LENGTH], "_preview_v1_")
  }

  /** The attempt a generated key belongs to, read from the key. */
  function NamedAttempt(k: string): Option<string> {
    if IsDisplayName(k) then Some(k[|k| - 5 - UUID_LENGTH..|k| - 5])
    else if IsPreviewName(k) then Some(k[|k| - 9 - UUID_LENGTH..|k| - 9])
    else None
  }

  lemma DisplayNameOwner(key: string, a: string)
    requires HasExtension(key) && ValidAttemptId(a)
    ensures IsDisplayName(DisplayName(key, a)) && NamedAttempt(DisplayName(key, a)) == Some(a)
  {
    var stem := key[..ExtensionStart(key).value];
    var k := DisplayName(key, a);
    assert k == stem + "_display_v1_" + a + ".webp";
    assert k[|k| - 5..] == ".webp";
    var body := k[..|k| - 5];
    assert body == stem + "_display_v1_" + a;
    assert body[..|body| - UUID_LENGTH] == stem + "_display_v1_";
    assert k[|k| - 5 - UUID_LENGTH..|k| - 5] == a;
  }

  lemma EndsWithJoin(s: string, suffix: string)
    ensures EndsWith(s + suffix, suffix) && (s + suffix)[..|s + suffix| - |suffix|] == s
  {
    JoinParts(s, suffix);
  }

  /** A preview name, taken apart from its end. */
  lemma PreviewParts(stem: string, a: string, edge: string)
    requires |a| == UUID_LENGTH && (edge == "_480" || edge == "_800")
    ensures var named := stem + "_preview_v1_" + a;
            var body := named + edge;
            var k := body + ".webp";
            EndsWith(k, ".webp") && k[..|k| - 5] == body && EndsWith(body, edge) && body[..|body| - 4] == named &&
            named[..|named| - UUID_LENGTH] == stem + "_preview_v1_" && EndsWith(stem + "_preview_v1_", "_preview_v1_") &&
            k[|k| - 9 - UUID_LENGTH..|k| - 9] == a
  {
    EndsWithJoin(stem, "_preview_v1_");
    EndsWithJoin(stem + "_preview_v1_", a);
    EndsWithJoin(stem + "_preview_v1_" + a, edge);
    EndsWithJoin(stem + "_preview_v1_" + a + edge, ".webp");
  }

  lemma LastOfSuffix(s: string, suffix: string)
    requires suffix != ""
    ensures EndsWith(s, suffix) ==> s != "" && s[|s| - 1] == suffix[|suffix| - 1]
  {
    if EndsWith(s, suffix) { assert s[|s| - |suffix|..][|suffix| - 1] == s[|s| - 1]; }
  }

  /** The characters before the last 36 of a preview name's body end in a part of its id, never in the display suffix. */
  lemma PreviewIsNoDisplay(stem: string, a: string, edge: string)
    requires ValidAttemptId(a) && |edge| == 4
    ensures var body := stem + "_preview_v1_" + a + edge;
            !EndsWith(body[..|body| - UUID_LENGTH], "_display_v1_")
  {
    var body := stem + "_preview_v1_" + a + edge;
    var front := body[..|body| - UUID_LENGTH];
    assert front == stem + "_preview_v1_" + a[..4];
    assert front[|front| - 1] == a[3] && a[3] in a;
    LastOfSuffix(front, "_display_v1_");
  }

  lemma PreviewNameOwner(key: string, a: string, e: Edge)
    requires HasExtension(key) && ValidAttemptId(a)
    ensures !IsDisplayName(PreviewName(key, a, e)) && NamedAttempt(PreviewName(key, a, e)) == Some(a)
  {
    hide EndsWith;
    var stem := key[..ExtensionStart(key).value];
    assert PreviewName(key, a, e) == stem + "_preview_v1_" + a + EdgeName(e) + ".webp";
    PreviewParts(stem, a, EdgeName(e));
    PreviewIsNoDisplay(stem, a, EdgeName(e));
  }

  lemma PreviewNameEdge(key: string, a: string, e: Edge)
    requires HasExtension(key)
    ensures var k := PreviewName(key, a, e); |k| >= 9 && k[|k| - 9..|k| - 5] == EdgeName(e)
  {
    assert PreviewName(key, a, e) == key[..ExtensionStart(key).value] + "_preview_v1_" + a + EdgeName(e) + ".webp";
  }

  /** An object key as the publishers and cleaners build it; `Render` gives the string the object store sees. */
  datatype ObjectKey =
    | SourceKey(name: string)
    | DisplayKey(source: string, attempt: string)
    | PreviewKey(source: string, attempt: string, edge: Edge)

  function Render(k: ObjectKey): string {
    match k
    case SourceKey(name) => name
    case DisplayKey(source, a) => DisplayName(source, a)
    case PreviewKey(source, a, e) => PreviewName(source, a, e)
  }

  /** The attempt a key belongs to. */
  function Owner(k: ObjectKey): Option<string> {
    match k
    case SourceKey(_) => None
    case DisplayKey(_, a) => Some(a)
    case PreviewKey(_, a, _) => Some(a)
  }

  /** Source names have an extension and do not look like generated names; attempt ids are UUIDs. */
  predicate ValidKey(k: ObjectKey) {
    match k
    case SourceKey(name) => HasExtension(name) && NamedAttempt(name).None?
    case DisplayKey(source, a) => HasExtension(source) && ValidAttemptId(a)
    case PreviewKey(source, a, _) => HasExtension(source) && ValidAttemptId(a)
  }

  /** The attempt id can be read back from the string alone. */
  lemma RenderNamesAttempt(k: ObjectKey)
    requires ValidKey(k)
    ensures NamedAttempt(Render(k)) == Owner(k)
    ensures IsDisplayName(Render(k)) <==> k.DisplayKey?
  {
    match k
    case SourceKey(name) =>
    case DisplayKey(source, a) => DisplayNameOwner(source, a);
    case PreviewKey(source, a, e) => PreviewNameOwner(source, a, e);
  }

  /**
   Keys of two attempts never render to the same string, whatever their source keys; nor do a source key and a
   generated key, a display key and a preview key, or the two previews of one attempt.
   */
  lemma RenderSeparatesAttempts(k1: ObjectKey, k2: ObjectKey)
    requires ValidKey(k1) && ValidKey(k2) && Render(k1) == Render(k2)
    ensures Owner(k1) == Owner(k2) && (k1.DisplayKey? <==> k2.DisplayKey?)
    ensures k1.PreviewKey? && k2.PreviewKey? ==> k1.edge == k2.edge
    ensures k1.SourceKey? ==> k1 == k2
  {
    RenderNamesAttempt(k1);
    RenderNamesAttempt(k2);
    if k1.PreviewKey? && k2.PreviewKey? {
      PreviewNameEdge(k1.source, k1.attempt, k1.edge);
      PreviewNameEdge(k2.source, k2.attempt, k2.edge);
      assert EdgeName(k1.edge)[1] == EdgeName(k2.edge)[1];
    }
  }
}
