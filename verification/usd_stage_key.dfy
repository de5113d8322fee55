/** The text that a stage is cached under, and what it takes for it to identify the stage. */
module UsdStageKey {
  import opened UsdStageModel

  function CacheKey(key: StageKey): string {
    (if key.options.loadPayloads then "all" else "none") + "|" + key.options.maskPath + "|" + key.root
  }

  /** The text before the first separator, and the text after it. */
  lemma {:induction false} Splits(a: string, x: string, b: string, y: string)
    requires '|' !in a && '|' !in b && a + "|" + x == b + "|" + y
    ensures a == b && x == y
  {
    var s, t := a + "|" + x, b + "|" + y;
    if a != "" && b != "" {
      assert s[1..] == a[1..] + "|" + x && t[1..] == b[1..] + "|" + y;
      Splits(a[1..], x, b[1..], y);
      assert a == [s[0]] + a[1..] && b == [t[0]] + b[1..];
    } else {
      assert a == "" ==> s[0] == '|' && s[1..] == x;
      assert b == "" ==> t[0] == '|' && t[1..] == y;
      assert s[0] == t[0];
    }
  }

  /** Prim paths have no '|' in them: then two opens have the same text if and only if their options and files are the
      same. (File names may have one: the file comes last.) */
  lemma KeyIdentifies(k: StageKey, l: StageKey)
    requires '|' !in k.options.maskPath && '|' !in l.options.maskPath
    ensures CacheKey(k) == CacheKey(l) <==> k == l
  {
    if CacheKey(k) == CacheKey(l) {
      var a, b := if k.options.loadPayloads then "all" else "none", if l.options.loadPayloads then "all" else "none";
      var x, y := k.options.maskPath + "|" + k.root, l.options.maskPath + "|" + l.root;
      assert a + "|" + x == CacheKey(k) && b + "|" + y == CacheKey(l);
      Splits(a, x, b, y);
      assert |a| == |b|;
      Splits(k.options.maskPath, k.root, l.options.maskPath, l.root);
    }
  }

  /** Were a mask to have one, different stages could share a cache entry. */
  lemma MasksMustNotHaveSeparators()
    ensures CacheKey(StageKey(StageOptions(true, "/A|/b"), "/c")) ==
            CacheKey(StageKey(StageOptions(true, "/A"), "/b|/c"))
  {
  }
}
