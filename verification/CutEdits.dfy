/** Edits of which not all can be read: what the fields before give, and what is said about the rest. */
module CutEdits {
  import opened Values
  import opened Coding
  import opened VersionEditCodec

  // ---------------------------------------------------------------------------------------------
  // What is read does not depend on what follows
  // ---------------------------------------------------------------------------------------------

  /** `q` is what `p` becomes with `b` behind the input. */
  predicate Extended<T(==)>(p: Parsed<T>, q: Parsed<T>, b: seq<Byte>) {
    p.Parsed? ==> q == Parsed(p.value, p.rest + b)
  }

  lemma {:induction false} VarintExtends(a: seq<Byte>, b: seq<Byte>, k: nat)
    requires k <= 5
    ensures Extended(ParseVarint(a, k), ParseVarint(a + b, k), b)
    decreases 5 - k
  {
    if k < 5 && a != [] {
      assert (a + b)[1..] == a[1..] + b;
      VarintExtends(a[1..], b, k + 1);
    }
  }

  lemma {:induction false} Varint64Extends(a: seq<Byte>, b: seq<Byte>, k: nat)
    requires k <= 10
    ensures Extended(ParseVarint64(a, k), ParseVarint64(a + b, k), b)
    decreases 10 - k
  {
    if k < 10 && a != [] {
      assert (a + b)[1..] == a[1..] + b;
      Varint64Extends(a[1..], b, k + 1);
    }
  }

  lemma PrefixedExtends(a: seq<Byte>, b: seq<Byte>)
    ensures Extended(ParsePrefixed(a), ParsePrefixed(a + b), b)
  {
    VarintExtends(a, b, 0);
    var n := ParseVarint(a, 0);
    if n.Parsed? && n.value <= |n.rest| {
      assert (n.rest + b)[..n.value] == n.rest[..n.value];
      assert (n.rest + b)[n.value..] == n.rest[n.value..] + b;
    }
  }

  lemma LevelExtends(a: seq<Byte>, b: seq<Byte>)
    ensures Extended(ParseLevel(a), ParseLevel(a + b), b)
  {
    VarintExtends(a, b, 0);
  }

  lemma PointerExtends(a: seq<Byte>, b: seq<Byte>)
    ensures Extended(ParsePointer(a), ParsePointer(a + b), b)
  {
    LevelExtends(a, b);
    var level := ParseLevel(a);
    if level.Parsed? {
      PrefixedExtends(level.rest, b);
    }
  }

  lemma DeletedExtends(a: seq<Byte>, b: seq<Byte>)
    ensures Extended(ParseDeleted(a), ParseDeleted(a + b), b)
  {
    LevelExtends(a, b);
    var level := ParseLevel(a);
    if level.Parsed? {
      Varint64Extends(level.rest, b, 0);
    }
  }

  lemma AddedExtends(a: seq<Byte>, b: seq<Byte>)
    ensures Extended(ParseAdded(a), ParseAdded(a + b), b)
  {
    LevelExtends(a, b);
    var level := ParseLevel(a);
    if level.Parsed? {
      Varint64Extends(level.rest, b, 0);
      var number := ParseVarint64(level.rest, 0);
      if number.Parsed? {
        Varint64Extends(number.rest, b, 0);
        var size := ParseVarint64(number.rest, 0);
        if size.Parsed? {
          PrefixedExtends(size.rest, b);
          var smallest := ParsePrefixed(size.rest);
          if smallest.Parsed? {
            PrefixedExtends(smallest.rest, b);
          }
        }
      }
    }
  }

  lemma BodyExtends(tag: nat, a: seq<Byte>, b: seq<Byte>)
    ensures Extended(ParseBody(tag, a), ParseBody(tag, a + b), b)
  {
    if tag == 1 {
      PrefixedExtends(a, b);
    } else if tag in {2, 3, 4, 9} {
      Varint64Extends(a, b, 0);
    } else if tag == 5 {
      PointerExtends(a, b);
    } else if tag == 6 {
      DeletedExtends(a, b);
    } else if tag == 7 {
      AddedExtends(a, b);
    }
  }

  lemma FieldExtends(a: seq<Byte>, b: seq<Byte>)
    ensures Extended(ParseField(a), ParseField(a + b), b)
  {
    VarintExtends(a, b, 0);
    var tag := ParseVarint(a, 0);
    if tag.Parsed? {
      BodyExtends(tag.value, tag.rest, b);
    }
  }

  // ---------------------------------------------------------------------------------------------
  // Cut fields and edits
  // ---------------------------------------------------------------------------------------------

  lemma NothingBehind(p: Parsed<Field>, b: seq<Byte>, f: Field)
    requires b != []
    ensures Extended(p, Parsed(f, []), b) ==> p.Failed?
  {
    if p.Parsed? {
      assert |p.rest + b| == |p.rest| + |b|;
    }
  }

  /** No field can be read from some of its bytes. */
  lemma CutField(f: Field, k: nat)
    requires Encodable(f) && k < |EncodeField(f)|
    ensures ParseField(EncodeField(f)[..k]).Failed?
  {
    var a, b := EncodeField(f)[..k], EncodeField(f)[k..];
    assert a + b == EncodeField(f) + [];
    FieldExtends(a, b);
    FieldParses(f, []);
    NothingBehind(ParseField(a), b, f);
  }

  /** Whole fields, and then something that is no field. */
  lemma FieldsThenRest(fs: seq<Field>, rest: seq<Byte>)
    requires forall f :: f in fs ==> Encodable(f)
    requires rest == [] || ParseField(rest).Failed?
    ensures Same(ParseAll(ParseField, EncodeAll(EncodeField, fs) + rest, []), (fs, rest))
  {
    forall i, more | 0 <= i < |fs| ensures Undoes(EncodeField, ParseField, fs[i], more) {
      FieldParses(fs[i], more);
    }
    ParseAllThenRest(EncodeField, ParseField, fs, rest, []);
    assert [] + fs == fs;
  }

  /** An edit with something behind it that is no field: the edit is read, and the rest complained about. */
  lemma UnreadableRest(before: Edit, e: Edit, rest: seq<Byte>)
    requires EditEncodable(e) && rest != [] && ParseField(rest).Failed?
    ensures Decode(before, Encode(e) + rest) == (e.(pointers := before.pointers + e.pointers), Corruption(Complaint(rest)))
  {
    FieldsThenRest(Fields(e), rest);
    TakeFields(Cleared(before), e);
  }

  /** The first bytes of an edit give its first fields, and no error exactly if they end with a field. */
  lemma CutEdit(before: Edit, e: Edit, k: nat) returns (n: nat, rest: seq<Byte>)
    requires EditEncodable(e) && k <= |Encode(e)|
    ensures n <= |Fields(e)| && Encode(e)[..k] == EncodeAll(EncodeField, Fields(e)[..n]) + rest
    ensures rest == [] || (n < |Fields(e)| && |rest| < |EncodeField(Fields(e)[n])|)
    ensures Decode(before, Encode(e)[..k]) ==
            (TakeAll(Cleared(before), Fields(e)[..n]), if rest == [] then Ok else Corruption(Complaint(rest)))
  {
    n, rest := CutRecords(EncodeField, Fields(e), k);
    if rest != [] {
      CutField(Fields(e)[n], |rest|);
    }
    FieldsThenRest(Fields(e)[..n], rest);
  }

  /** A level that does not exist is an error, in every field that has one. */
  lemma NoSuchLevel(before: Edit, tag: nat, level: nat, rest: seq<Byte>)
    requires tag in {5, 6, 7} && 6 < level < 0x1_0000_0000
    ensures Decode(before, Varint(tag) + (Varint(level) + rest)) ==
            (Cleared(before), Corruption(if tag == 5 then "compaction pointer" else if tag == 6 then "deleted file" else "new-file entry"))
  {
    VarintParses(tag, Varint(level) + rest, 0);
    LevelRefused(level, rest);
  }
}
