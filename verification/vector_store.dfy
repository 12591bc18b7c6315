/** Loading documents into the vector store (app/vectordb/store.py,
    `load_to_store`): every content is split into chunks, and the chunks
    of all contents go to the store in one `add_texts` call together with
    a metadata record holding each chunk's position within its content and
    a newId id per chunk. The splitter and the id generator are
    parameters. */
module VectorStore {

  /** The splitter's configuration. */
  datatype SplitterConfig = SplitterConfig(chunkSize: nat, chunkOverlap: nat, separators: seq<string>)

  /** `RecursiveCharacterTextSplitter(chunk_size=200, chunk_overlap=20,
      separators=["\n\n", "\n", "."])`. */
  const LoaderSplitter: SplitterConfig := SplitterConfig(200, 20, ["\n\n", "\n", "."])

  /** `{"chunk": j}`. */
  datatype Metadata = Metadata(chunk: nat)

  /** The arguments of the single `add_texts` call. */
  datatype AddTexts = AddTexts(texts: seq<string>, metadatas: seq<Metadata>, ids: seq<string>)

  /** The concatenation of a list of lists. */
  function Flatten<T>(xss: seq<seq<T>>): seq<T>
  {
    if |xss| == 0 then [] else Flatten(xss[..|xss| - 1]) + xss[|xss| - 1]
  }

  /** The chunks of every content, per content. */
  function Chunks(contents: seq<string>, split: string -> seq<string>): (r: seq<seq<string>>)
    ensures |r| == |contents|
    ensures forall i :: 0 <= i < |contents| ==> r[i] == split(contents[i])
  {
    seq(|contents|, i requires 0 <= i < |contents| => split(contents[i]))
  }

  /** The records `{"chunk": 0}`, ..., `{"chunk": n - 1}`. */
  function Numbered(n: nat): (r: seq<Metadata>)
    ensures |r| == n
    ensures forall j :: 0 <= j < n ==> r[j] == Metadata(j)
  {
    seq(n, j requires 0 <= j < n => Metadata(j))
  }

  /** The metadata records of every content, per content: numbering
      restarts at 0 for each. */
  function Numbering(contents: seq<string>, split: string -> seq<string>): (r: seq<seq<Metadata>>)
    ensures |r| == |contents|
    ensures forall i :: 0 <= i < |contents| ==> r[i] == Numbered(|split(contents[i])|)
  {
    seq(|contents|, i requires 0 <= i < |contents| => Numbered(|split(contents[i])|))
  }

  /** Flattening a list that grew by one element. */
  lemma FlattenSnoc<T>(xss: seq<seq<T>>, xs: seq<T>)
    ensures Flatten(xss + [xs]) == Flatten(xss) + xs
  {
  }

  /** Flattening distributes over concatenation. */
  lemma {:induction false} FlattenAppend<T>(a: seq<seq<T>>, b: seq<seq<T>>)
    ensures Flatten(a + b) == Flatten(a) + Flatten(b)
    decreases |b|
  {
    if |b| == 0 {
      assert a + b == a;
    } else {
      var front, last := b[..|b| - 1], b[|b| - 1];
      assert b == front + [last];
      assert a + b == (a + front) + [last];
      FlattenAppend(a, front);
      FlattenSnoc(a + front, last);
      FlattenSnoc(front, last);
    }
  }

  /** Flattening a longer prefix extends a shorter one. */
  lemma FlattenPrefix<T>(xss: seq<seq<T>>, i: nat, k: nat)
    requires i <= k <= |xss|
    ensures Flatten(xss[..k]) == Flatten(xss[..i]) + Flatten(xss[i..k])
  {
    assert xss[..k] == xss[..i] + xss[i..k];
    FlattenAppend(xss[..i], xss[i..k]);
  }

  /** Lists of equally long lists flatten to equally long lists. */
  lemma {:induction false} FlattenSameLength<S, T>(xss: seq<seq<S>>, yss: seq<seq<T>>)
    requires |xss| == |yss|
    requires forall i :: 0 <= i < |xss| ==> |xss[i]| == |yss[i]|
    ensures |Flatten(xss)| == |Flatten(yss)|
    decreases |xss|
  {
    if |xss| > 0 {
      FlattenSameLength(xss[..|xss| - 1], yss[..|yss| - 1]);
    }
  }

  /** Element `j` of list `i` sits at offset `|Flatten(xss[..i])| + j` of
      the flattened list. */
  lemma FlattenAt<T>(xss: seq<seq<T>>, i: nat, j: nat)
    requires i < |xss| && j < |xss[i]|
    ensures |Flatten(xss[..i])| + j < |Flatten(xss)|
    ensures Flatten(xss)[|Flatten(xss[..i])| + j] == xss[i][j]
  {
    FlattenPrefix(xss, i + 1, |xss|);
    assert xss[..|xss|] == xss;
    assert xss[..i + 1] == xss[..i] + [xss[i]];
    FlattenSnoc(xss[..i], xss[i]);
  }

  /** `load_to_store` up to the store call: the arguments it passes to
      `add_texts`. `split` is `splitter.split_text` for `LoaderSplitter`;
      `newId(n)` is the `n`-th `uuid4().hex` drawn. */
  method LoadToStore(contents: seq<string>, split: string -> seq<string>, newId: nat -> string) returns (call: AddTexts)
    ensures call.texts == Flatten(Chunks(contents, split))
    ensures call.metadatas == Flatten(Numbering(contents, split))
    ensures |call.metadatas| == |call.texts| && |call.ids| == |call.texts|
    ensures forall k :: 0 <= k < |call.ids| ==> call.ids[k] == newId(k)
  {
    var chunks := Chunks(contents, split);
    var numbering := Numbering(contents, split);
    var texts: seq<string> := [];
    var metadatas: seq<Metadata> := [];
    var ids: seq<string> := [];
    for i := 0 to |contents|
      invariant texts == Flatten(chunks[..i])
      invariant metadatas == Flatten(numbering[..i])
      invariant |metadatas| == |texts| && |ids| == |texts|
      invariant forall k :: 0 <= k < |ids| ==> ids[k] == newId(k)
    {
      var pieces := split(contents[i]);
      for j := 0 to |pieces|
        invariant texts == Flatten(chunks[..i]) + pieces[..j]
        invariant metadatas == Flatten(numbering[..i]) + Numbered(|pieces|)[..j]
        invariant |metadatas| == |texts| && |ids| == |texts|
        invariant forall k :: 0 <= k < |ids| ==> ids[k] == newId(k)
      {
        assert pieces[..j + 1] == pieces[..j] + [pieces[j]];
        assert Numbered(|pieces|)[..j + 1] == Numbered(|pieces|)[..j] + [Metadata(j)];
        texts := texts + [pieces[j]];
        metadatas := metadatas + [Metadata(j)];
        ids := ids + [newId(|ids|)];
      }
      assert chunks[..i + 1] == chunks[..i] + [pieces];
      assert numbering[..i + 1] == numbering[..i] + [Numbered(|pieces|)];
      FlattenSnoc(chunks[..i], pieces);
      FlattenSnoc(numbering[..i], Numbered(|pieces|));
      assert pieces[..|pieces|] == pieces;
      assert Numbered(|pieces|)[..|pieces|] == Numbered(|pieces|);
    }
    assert chunks[..|contents|] == chunks;
    assert numbering[..|contents|] == numbering;
    call := AddTexts(texts, metadatas, ids);
  }

  /** Where the chunks of content `i` start in the call. */
  function Offset(contents: seq<string>, split: string -> seq<string>, i: nat): nat
    requires i <= |contents|
  {
    |Flatten(Chunks(contents, split)[..i])|
  }

  /** Chunk `j` of content `i` is stored at `Offset(i) + j` with metadata
      `{"chunk": j}`: texts follow input order and the numbering restarts
      for every content. */
  lemma ChunkPlacement(contents: seq<string>, split: string -> seq<string>, i: nat, j: nat)
    requires i < |contents| && j < |split(contents[i])|
    ensures Offset(contents, split, i) + j < |Flatten(Chunks(contents, split))|
    ensures Flatten(Chunks(contents, split))[Offset(contents, split, i) + j] == split(contents[i])[j]
    ensures Offset(contents, split, i) + j < |Flatten(Numbering(contents, split))|
    ensures Flatten(Numbering(contents, split))[Offset(contents, split, i) + j] == Metadata(j)
  {
    var chunks, numbering := Chunks(contents, split), Numbering(contents, split);
    assert chunks[i] == split(contents[i]);
    assert numbering[i] == Numbered(|split(contents[i])|);
    FlattenAt(chunks, i, j);
    FlattenAt(numbering, i, j);
    var before, numberedBefore := chunks[..i], numbering[..i];
    assert forall k :: 0 <= k < i ==> |before[k]| == |numberedBefore[k]|;
    FlattenSameLength(before, numberedBefore);
    var offset := Offset(contents, split, i);
    assert offset == |Flatten(before)| == |Flatten(numberedBefore)|;
    assert Flatten(chunks)[offset + j] == chunks[i][j];
    assert Flatten(numbering)[offset + j] == numbering[i][j] == Metadata(j);
  }

  /** With an id source that never repeats, every stored chunk gets its own
      id. */
  lemma IdsDistinct(call: AddTexts, newId: nat -> string)
    requires forall k :: 0 <= k < |call.ids| ==> call.ids[k] == newId(k)
    requires forall m: nat, n: nat :: m != n ==> newId(m) != newId(n)
    ensures forall k, l :: 0 <= k < l < |call.ids| ==> call.ids[k] != call.ids[l]
  {
  }
}
