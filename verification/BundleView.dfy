/** What a rotation sees of a bundle, and why its two merges change exactly that much of it. */
module BundleView {
  import opened A2aDoc
  import opened Text
  import opened Bundles
  import opened EnvFile
  import Fleet

  /** JSON and base64 are opaque; None is text that is not a JSON object. */
  datatype Codec = Codec(parse: string -> Option<A2a>, render: A2a -> string, decode: string -> string)

  const GATEWAY_API_KEY := "GATEWAY_API_KEY"

  /** The content of agent.env as bundledEnvValue reads it. */
  function EnvText(c: Codec, files: seq<File>): string {
    var f := Find(files, ENV_FILE);
    if f.None? then "" else if f.value.base64 then c.decode(f.value.content) else f.value.content
  }

  lemma KeyIsEnvKey()
    ensures EnvKey(GATEWAY_API_KEY)
  {
  }

  /** readA2aFromBundle and bundledEnvValue. */
  function View(c: Codec, b: IdentityBundle): Fleet.Bundle {
    KeyIsEnvKey();
    var f := Find(b.files, A2A_FILE);
    Fleet.Bundle(if f.None? then None else c.parse(f.value.content), BundledEnvValue(EnvText(c, b.files), GATEWAY_API_KEY))
  }

  lemma {:induction false} FirstIsLast(files: seq<File>, path: string)
    requires Distinct(files)
    ensures Newest(files, path) == Find(files, path)
  {
    if Newest(files, path).Some? {
      var f := Newest(files, path).value;
      var i :| 0 <= i < |files| && files[i] == f;
      var g := Find(files, path).value;
      var j :| 0 <= j < |files| && files[j] == g;
      assert i == j;
    }
  }

  /** Replacing config/a2a.json changes the document and nothing else a rotation reads. */
  lemma DocReplaced(c: Codec, b: IdentityBundle, doc: A2a)
    requires Distinct(b.files) && c.parse(c.render(doc)) == Some(doc)
    requires NextBundle(Some(b), ReplaceOne(b.files, A2A_FILE, c.render(doc))).Ok?
    ensures View(c, NextBundle(Some(b), ReplaceOne(b.files, A2A_FILE, c.render(doc))).value) == Fleet.WithDoc(View(c, b), doc)
  {
    hide NextBundle, ReplaceOne, Find, Newest, BundledEnvValue;
    OtherFilesStay(b, A2A_FILE, c.render(doc));
    FirstIsLast(b.files, ENV_FILE);
    assert |A2A_FILE| != |ENV_FILE|;
  }

  /** The one-line update of agent.env changes the model key and nothing else a rotation reads. */
  lemma ModelKeyReplaced(c: Codec, b: IdentityBundle, key: Key)
    requires Distinct(b.files) && NoLineEnd(key) && Strip(key) == key
    requires NextBundle(Some(b), ReplaceOne(b.files, ENV_FILE, UpdatedEnv(EnvText(c, b.files), GATEWAY_API_KEY, key))).Ok?
    ensures View(c, NextBundle(Some(b), ReplaceOne(b.files, ENV_FILE, UpdatedEnv(EnvText(c, b.files), GATEWAY_API_KEY, key))).value) ==
            View(c, b).(modelKey := key)
  {
    hide NextBundle, ReplaceOne, Find, Newest, BundledEnvValue, UpdatedEnv, Strip;
    KeyIsEnvKey();
    var text := UpdatedEnv(EnvText(c, b.files), GATEWAY_API_KEY, key);
    OtherFilesStay(b, ENV_FILE, text);
    FirstIsLast(b.files, A2A_FILE);
    EnvUpdateRoundTrip(EnvText(c, b.files), GATEWAY_API_KEY, key, GATEWAY_API_KEY);
    assert |A2A_FILE| != |ENV_FILE|;
  }
}
