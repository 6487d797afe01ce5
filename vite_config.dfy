/**
 * The `manualChunks` rule of the production build: which output chunk a
 * module with path `id` goes to.
 */
module ViteConfig {

  import opened Wrappers
  import opened Strings

  const NodeModules := "node_modules/"
  const EmotionPath := "node_modules/@emotion"

  /** A path under `node_modules/@emotion` is under `node_modules/`. */
  lemma EmotionIsUnderNodeModules(id: string)
    requires Contains(id, EmotionPath)
    ensures Contains(id, NodeModules)
  {
    var i := IndexOf(id, EmotionPath).value;
    assert id[i..i + |NodeModules|] == id[i..i + |EmotionPath|][..|NodeModules|];
    ContainsAt(id, NodeModules, i);
  }

  /** A string without the one-character string `[c]` does not hold `c`. */
  lemma NoCharOccurrence(s: string, c: char)
    requires !Contains(s, [c])
    ensures c !in s
  {
    if c in s {
      var k :| 0 <= k < |s| && s[k] == c;
      assert s[k..k + 1] == [c];
      ContainsAt(s, [c], k);
    }
  }

  /** The part of `s` before the first occurrence of `sep`, which `split(sep)[0]` is. */
  lemma SplitHead(s: string, sep: string)
    requires |sep| > 0
    ensures |Split(s, sep)[0]| <= |s| && s[..|Split(s, sep)[0]|] == Split(s, sep)[0]
    ensures |Split(s, sep)[0]| == |s| || OccursAt(s, sep, |Split(s, sep)[0]|)
    ensures forall j: nat :: j < |Split(s, sep)[0]| ==> !OccursAt(s, sep, j)
  {
  }

  /** The text after the first `node_modules/` of `id`. */
  function AfterNodeModules(id: string): string
    requires Contains(id, NodeModules)
  {
    id[IndexOf(id, NodeModules).value + |NodeModules|..]
  }

  /** `id.split("node_modules/")[1].split("/")[0]`. */
  function PackageSegment(id: string): string
    requires Contains(id, NodeModules)
  {
    Split(Split(id, NodeModules)[1], "/")[0]
  }

  /** `split(sep)[1]` begins the split of the text after the first separator. */
  lemma SecondPiece(id: string, sep: string)
    requires |sep| > 0 && Contains(id, sep)
    ensures Split(id, sep)[1] == Split(id[IndexOf(id, sep).value + |sep|..], sep)[0]
  {
  }

  /** `split("/")[0]` is a "/"-free prefix that ends at the end or at a "/". */
  lemma FirstSegment(package: string)
    ensures var name := Split(package, "/")[0];
      && '/' !in name && |name| <= |package| && package[..|name|] == name
      && (|name| == |package| || package[|name|] == '/')
  {
    var name := Split(package, "/")[0];
    SplitHead(package, "/");
    SplitFirstPieceExcludesSeparator(package, "/");
    NoCharOccurrence(name, '/');
    if |name| < |package| {
      assert OccursAt(package, "/", |name|);
    }
  }

  /**
   * The segment is a prefix of the text after the first `node_modules/`,
   * holds no "/", and ends at the first of: the end of that text, a "/", or
   * the start of a second `node_modules/`.
   */
  lemma PackageSegmentBounds(id: string)
    requires Contains(id, NodeModules)
    ensures var name := PackageSegment(id); var after := AfterNodeModules(id);
      && '/' !in name
      && |name| <= |after| && after[..|name|] == name
      && (|name| == |after| || after[|name|] == '/' || OccursAt(after, NodeModules, |name|))
      && (forall j: nat :: j < |name| ==> !OccursAt(after, NodeModules, j))
  {
    var after := AfterNodeModules(id);
    var package := Split(id, NodeModules)[1];
    SecondPiece(id, NodeModules);
    SplitHead(after, NodeModules);
    var name := PackageSegment(id);
    FirstSegment(package);
    assert |package| <= |after| && after[..|package|] == package;
    assert after[..|name|] == package[..|name|];
    if |name| < |package| {
      assert after[|name|] == package[|name|];
    }
  }

  /** `manualChunks(id)`; `None` is `undefined`, the default chunking. */
  function ManualChunks(id: string): (chunk: Option<string>)
    ensures Contains(id, EmotionPath) ==> chunk == Some("@emotion")
    ensures !Contains(id, NodeModules) ==> chunk == None
    ensures !Contains(id, EmotionPath) && Contains(id, NodeModules) ==>
      && chunk.Some?
      && '/' !in chunk.value
      && var after := AfterNodeModules(id);
      && |chunk.value| <= |after| && after[..|chunk.value|] == chunk.value
      && (|chunk.value| == |after| || after[|chunk.value|] == '/' || OccursAt(after, NodeModules, |chunk.value|))
      && (forall j: nat :: j < |chunk.value| ==> !OccursAt(after, NodeModules, j))
  {
    if Contains(id, EmotionPath) then
      EmotionIsUnderNodeModules(id);
      Some("@emotion")
    else if Contains(id, NodeModules) then
      PackageSegmentBounds(id);
      Some(PackageSegment(id))
    else
      None
  }

  /** A "/"-free prefix of `name + "/" + rest` that ends as `PackageSegmentBounds` says is `name`. */
  lemma {:induction false} SegmentIsName(after: string, name: string, rest: string, c: string)
    requires after == name + "/" + rest
    requires '/' !in name && !Contains(name, "node_modules")
    requires '/' !in c && |c| <= |after| && after[..|c|] == c
    requires |c| == |after| || after[|c|] == '/' || OccursAt(after, NodeModules, |c|)
    ensures c == name
  {
    assert after[|name|] == '/';
    assert forall k :: 0 <= k < |c| ==> c[k] == after[k];
    assert forall k :: 0 <= k < |name| ==> after[k] == name[k];
    assert |c| <= |name|;
    if |c| < |name| {
      var j := |c| + |NodeModules| - 1;
      assert after[|c|..|c| + |NodeModules|] == NodeModules;
      assert forall k :: |c| <= k < |c| + |NodeModules| ==> after[k] == NodeModules[k - |c|];
      assert after[j] == '/';
      assert j == |name|;
      assert name[|c|..|name|] == after[|c|..j];
      ContainsAt(name, "node_modules", |c|);
    }
  }

  /**
   * For a path `<prefix>node_modules/<name>/<rest>` whose first
   * `node_modules/` is the one shown, where `name` has no "/" and does not
   * contain "node_modules", the chunk is `name`: one chunk per package (a
   * scoped package `@scope/pkg` goes to chunk `@scope`).
   */
  lemma {:induction false} PackageChunk(prefix: string, name: string, rest: string)
    requires IndexOf(prefix + NodeModules + name + "/" + rest, NodeModules) == Some(|prefix|)
    requires !Contains(prefix + NodeModules + name + "/" + rest, EmotionPath)
    requires '/' !in name && !Contains(name, "node_modules")
    ensures ManualChunks(prefix + NodeModules + name + "/" + rest) == Some(name)
  {
    var id := prefix + NodeModules + name + "/" + rest;
    assert AfterNodeModules(id) == name + "/" + rest;
    PackageSegmentBounds(id);
    SegmentIsName(AfterNodeModules(id), name, rest, PackageSegment(id));
  }

  /** A scoped package of the styling library goes to the one "@emotion" chunk. */
  lemma EmotionChunk(prefix: string, rest: string)
    ensures ManualChunks(prefix + EmotionPath + rest) == Some("@emotion")
  {
    ContainsAt(prefix + EmotionPath + rest, EmotionPath, |prefix|);
  }

  /** A path without "@" is not under `node_modules/@emotion`. */
  lemma NoEmotionWithoutAt(id: string)
    requires '@' !in id
    ensures !Contains(id, EmotionPath)
  {
    forall j: nat | j + |EmotionPath| <= |id| ensures !OccursAt(id, EmotionPath, j) {
      assert id[j..j + |EmotionPath|][13] == id[j + 13];
    }
  }

  /**
   * When a second `node_modules/` follows the package name with no "/" in
   * between, the chunk is the name: it ends where that second one begins.
   */
  lemma {:induction false} ChunkEndsAtSecondNodeModules(prefix: string, name: string, rest: string)
    requires IndexOf(prefix + NodeModules + name + NodeModules + rest, NodeModules) == Some(|prefix|)
    requires !Contains(prefix + NodeModules + name + NodeModules + rest, EmotionPath)
    requires '/' !in name
    requires forall j: nat :: j < |name| ==> !OccursAt(name + NodeModules + rest, NodeModules, j)
    ensures ManualChunks(prefix + NodeModules + name + NodeModules + rest) == Some(name)
  {
    var id := prefix + NodeModules + name + NodeModules + rest;
    var after := name + NodeModules + rest;
    assert AfterNodeModules(id) == after;
    ContainsAt(id, NodeModules, |prefix|);
    var c := ManualChunks(id).value;
    assert after[|name|..|name| + |NodeModules|] == NodeModules;
    assert OccursAt(after, NodeModules, |name|);
    assert |c| == |name|;
    assert c == after[..|name|] == name;
  }

  /** A second `node_modules/` right after the package name ends the chunk: ".../node_modules/xnode_modules/y" goes to "x". */
  lemma NestedNodeModulesChunk()
    ensures ManualChunks("p/" + NodeModules + "x" + NodeModules + "y") == Some("x")
  {
    var id := "p/" + NodeModules + "x" + NodeModules + "y";
    assert OccursAt(id, NodeModules, 2) by {
      assert id[2..2 + |NodeModules|] == NodeModules;
    }
    assert IndexOf(id, NodeModules) == Some(2) by {
      assert id[0] == 'p' && id[1] == '/' && NodeModules[0] == 'n';
      assert id[0..13][0] == id[0] && id[1..14][0] == id[1];
    }
    assert '@' !in NodeModules;
    NoEmotionWithoutAt(id);
    var after := "x" + NodeModules + "y";
    assert !OccursAt(after, NodeModules, 0) by {
      assert after[0..13][0] == 'x';
    }
    ChunkEndsAtSecondNodeModules("p/", "x", "y");
  }
}
