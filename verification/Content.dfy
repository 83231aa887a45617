/**
 * What content is: the library calls the platform treats as black boxes, and
 * what a content hash stands for once they are fixed.
 */
module Content {
  import opened Wrappers
  import opened Text
  import opened Extraction

  type Sha = string
  type Vector = seq<real>

  /**
   * hash: SHA-256. decode: UTF-8. split: the text splitter. embed: the embedding
   * model, one vector a text. single: rounding to float32, the form in which the
   * cache and the collections both hold a vector. extraction and embedding are
   * the version constants of packages/core/config.py.
   */
  datatype Env = Env(
    hash: Bytes -> Sha,
    decode: Bytes -> Option<string>,
    split: string -> seq<string>,
    embed: string -> Vector,
    single: Vector -> Vector,
    extraction: string,
    embedding: string)
  {
    ghost predicate Valid() {
      && (forall a, b :: hash(a) == hash(b) ==> a == b)
      && (forall v :: single(single(v)) == single(v))
    }

    function TextOf(data: Bytes): Option<string> {
      Extraction.TextOf(decode, data)
    }

    function Extract(key: string, data: Bytes): Option<string> {
      Extraction.Extract(decode, key, data)
    }

    /** packages/core/chunking.py: the splitter's pieces, blank ones dropped. */
    function Chunks(text: string): seq<string> {
      NonBlank(split(text))
    }

    /** The text a hash stands for, whoever supplied the bytes. */
    ghost function CanonText(sha: Sha): Option<string> {
      if exists data :: hash(data) == sha then
        var data :| hash(data) == sha;
        TextOf(data)
      else None
    }

    ghost function Canon(sha: Sha): seq<string> {
      if CanonText(sha).Some? then Chunks(CanonText(sha).value) else []
    }

    ghost function CanonVector(sha: Sha, ordinal: nat): Vector
      requires ordinal < |Canon(sha)|
    {
      single(embed(Canon(sha)[ordinal]))
    }

    lemma CanonIsOfTheBytes(data: Bytes)
      requires Valid()
      ensures CanonText(hash(data)) == TextOf(data)
    {
    }
  }

  function NonBlank(pieces: seq<string>): (kept: seq<string>)
    ensures forall c :: c in kept ==> c in pieces && Strip(c) != ""
  {
    if pieces == [] then []
    else (if Strip(pieces[0]) != "" then [pieces[0]] else []) + NonBlank(pieces[1..])
  }

  lemma {:induction false} NonBlankConcat(a: seq<string>, b: seq<string>)
    ensures NonBlank(a + b) == NonBlank(a) + NonBlank(b)
  {
    hide NonBlank;
    if a == [] {
      NonBlankOfNone();
      assert a + b == b;
    } else {
      NonBlankConcat(a[1..], b);
      assert (a + b)[0] == a[0] && (a + b)[1..] == a[1..] + b;
      NonBlankStep(a);
      NonBlankStep(a + b);
    }
  }

  lemma NonBlankOfNone()
    ensures NonBlank([]) == []
  {
  }

  lemma NonBlankStep(pieces: seq<string>)
    requires pieces != []
    ensures NonBlank(pieces) == NonBlank([pieces[0]]) + NonBlank(pieces[1..])
  {
    NonBlankOfOne(pieces[0]);
    hide Strip;
  }

  /** A piece is kept exactly when it is not blank, in its place among the others. */
  lemma NonBlankExactly(before: seq<string>, piece: string, after: seq<string>)
    ensures NonBlank(before + [piece] + after)
      == NonBlank(before) + (if Strip(piece) != "" then [piece] else []) + NonBlank(after)
  {
    NonBlankOfOne(piece);
    hide NonBlank, Strip;
    NonBlankConcat(before + [piece], after);
    NonBlankConcat(before, [piece]);
  }

  lemma NonBlankOfOne(piece: string)
    ensures NonBlank([piece]) == if Strip(piece) != "" then [piece] else []
  {
    hide Strip;
    assert [piece][1..] == [];
  }
}
