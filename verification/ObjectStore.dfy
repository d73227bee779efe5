// The object store as AppendJSONL uses it: no native append, so the object is
// read, extended and overwritten.
module ObjectStore {
  import opened Jsonl

  function Object(objects: map<string, Bytes>, key: string): Bytes {
    if key in objects then objects[key] else []
  }

  class Bucket {
    var objects: map<string, Bytes>

    constructor ()
      ensures objects == map[]
    {
      objects := map[];
    }

    /** An absent object and a failed stat or download both read as no bytes. */
    method TryDownload(key: string, reachable: bool) returns (b: Bytes)
      ensures b == if reachable then Object(objects, key) else []
    {
      if !reachable || key !in objects {
        return [];
      }
      return objects[key];
    }

    /** Read-modify-write; a rejected upload leaves the object as it was. */
    method AppendJsonl(key: string, lines: seq<Bytes>, downloaded: bool, uploaded: bool) returns (ok: bool)
      modifies this
      ensures ok == uploaded
      ensures objects == if uploaded
                         then old(objects)[key := (if downloaded then Object(old(objects), key) else []) + Encode(lines)]
                         else old(objects)
    {
      var buf := TryDownload(key, downloaded);
      ghost var existing := buf;
      assert lines[..0] == [] && existing + [] == existing;
      for i := 0 to |lines|
        invariant buf == existing + Encode(lines[..i])
        invariant objects == old(objects)
      {
        EncodeSnoc(lines, i);
        buf := buf + lines[i];
        buf := buf + [NEWLINE];
      }
      assert lines[..|lines|] == lines;
      if uploaded {
        objects := objects[key := buf];
      }
      return uploaded;
    }
  }

  lemma EncodeSnoc(lines: seq<Bytes>, i: nat)
    requires i < |lines|
    ensures forall b: Bytes :: b + Encode(lines[..i]) + lines[i] + [NEWLINE] == b + Encode(lines[..i + 1])
  {
    assert lines[..i + 1] == lines[..i] + [lines[i]];
    EncodeConcat(lines[..i], [lines[i]]);
    assert Encode([lines[i]]) == lines[i] + [NEWLINE];
  }
}
