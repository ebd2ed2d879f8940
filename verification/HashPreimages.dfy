/**
 The hash inputs of `scripts/generate-real-proof.ts`. SHA-256 is a parameter `sha`; what is
 proved concerns the byte strings it is given.
 */
module HashPreimages {
  import opened Bytes
  import opened FieldBytes

  type Digest = d: seq<Byte> | |d| == 32 witness seq(32, _ => 0)

  type Sha = seq<Byte> -> Digest

  datatype Tag = ConstraintHash | OutputCommitment | BindingBase | Binding | Nullifier

  function TagText(tag: Tag): string {
    match tag
    case ConstraintHash => "AGENC_V2_CONSTRAINT_HASH"
    case OutputCommitment => "AGENC_V2_OUTPUT_COMMITMENT"
    case BindingBase => "AGENC_V2_BINDING_BASE"
    case Binding => "AGENC_V2_BINDING"
    case Nullifier => "AGENC_V2_NULLIFIER"
  }

  function AsciiByte(c: char, text: string): Byte
    requires c in text && forall d :: d in text ==> d < '\U{0080}'
  {
    c as nat
  }

  /** `Buffer.from(text)` of an ASCII text. */
  function Ascii(text: string): (bytes: seq<Byte>)
    requires forall c :: c in text ==> c < '\U{0080}'
    ensures |bytes| == |text| && forall i :: 0 <= i < |text| ==> bytes[i] == text[i] as int
  {
    seq(|text|, i requires 0 <= i < |text| => AsciiByte(text[i], text))
  }

  function TagBytes(tag: Tag): (bytes: seq<Byte>)
    ensures |bytes| == |TagText(tag)|
  {
    Ascii(TagText(tag))
  }

  /** The bytes of the values, 32 for each, after normalization. */
  function Encode(values: seq<int>): seq<Byte> {
    if values == [] then []
    else Encode(values[..|values| - 1]) + ToBytes32(Normalize(values[|values| - 1]))
  }

  lemma EncodePrefix(values: seq<int>, i: nat)
    requires i < |values|
    ensures Encode(values[..i + 1]) == Encode(values[..i]) + ToBytes32(Normalize(values[i]))
  {
    assert values[..i + 1][..i] == values[..i];
  }

  /** Everything the hasher is fed for a tag and a list of values. */
  function Preimage(tag: Tag, values: seq<int>): seq<Byte> {
    TagBytes(tag) + Encode(values)
  }

  function HashToField(sha: Sha, preimage: seq<Byte>): nat {
    BigEndian(sha(preimage)) % FIELD_MODULUS
  }

  /** `hashFieldElements`. */
  method HashFieldElements(sha: Sha, domainTag: seq<Byte>, values: seq<int>) returns (hash: nat)
    ensures hash == HashToField(sha, domainTag + Encode(values))
  {
    hide ToBytes32, Normalize;
    var hasher := domainTag;
    for i := 0 to |values|
      invariant hasher == domainTag + Encode(values[..i])
    {
      EncodePrefix(values, i);
      hasher := hasher + ToBytes32(Normalize(values[i]));
    }
    assert values[..|values|] == values;
    hash := HashToField(sha, hasher);
  }

  function NormalizeAll(values: seq<int>): (r: seq<int>)
    ensures |r| == |values| && forall i :: 0 <= i < |values| ==> r[i] == Normalize(values[i])
  {
    seq(|values|, i requires 0 <= i < |values| => Normalize(values[i]))
  }

  function ConstraintInput(output: seq<int>): seq<Byte> {
    Preimage(ConstraintHash, NormalizeAll(output))
  }

  function ComputeConstraintHash(sha: Sha, output: seq<int>): nat {
    HashToField(sha, ConstraintInput(output))
  }

  function CommitmentInput(output: seq<int>, salt: int): seq<Byte> {
    Preimage(OutputCommitment, NormalizeAll(output) + [Normalize(salt)])
  }

  function ComputeOutputCommitment(sha: Sha, output: seq<int>, salt: int): nat {
    HashToField(sha, CommitmentInput(output, salt))
  }

  function BindingBaseInput(taskPda: seq<Byte>, agentPubkey: seq<Byte>): seq<Byte> {
    Preimage(BindingBase, [FieldOf(taskPda), FieldOf(agentPubkey)])
  }

  function BindingInput(bindingBase: int, outputCommitment: int): seq<Byte> {
    Preimage(Binding, [bindingBase, Normalize(outputCommitment)])
  }

  function ComputeBinding(sha: Sha, taskPda: seq<Byte>, agentPubkey: seq<Byte>, outputCommitment: int): nat {
    var bindingBase := HashToField(sha, BindingBaseInput(taskPda, agentPubkey));
    HashToField(sha, BindingInput(bindingBase, outputCommitment))
  }

  function NullifierInput(constraintHash: int, outputCommitment: int, agentSecret: int): seq<Byte> {
    TagBytes(Nullifier)
    + ToBytes32(Normalize(constraintHash))
    + ToBytes32(Normalize(outputCommitment))
    + ToBytes32(Normalize(agentSecret))
  }

  /** The nullifier is not reduced modulo the field order. */
  function ComputeNullifier(sha: Sha, constraintHash: int, outputCommitment: int, agentSecret: int): nat {
    BigEndian(sha(NullifierInput(constraintHash, outputCommitment, agentSecret)))
  }

  // ---------------------------------------------------------------- preimages determine tag and values

  predicate CongruentLists(a: seq<int>, b: seq<int>) {
    |a| == |b| && forall i :: 0 <= i < |a| ==> Congruent(a[i], b[i])
  }

  lemma {:induction false} EncodeLength(values: seq<int>)
    ensures |Encode(values)| == 32 * |values|
  {
    if values != [] {
      EncodeLength(values[..|values| - 1]);
      NormalizedBytes(values[|values| - 1]);
    }
  }

  lemma ConcatInjective(a: seq<Byte>, x: seq<Byte>, b: seq<Byte>, y: seq<Byte>)
    requires |a| == |b|
    ensures a + x == b + y <==> a == b && x == y
  {
    if a + x == b + y {
      assert a == (a + x)[..|a|] && b == (b + y)[..|b|];
      assert x == (a + x)[|a|..] && y == (b + y)[|b|..];
    }
  }

  lemma {:induction false} EncodeInjective(a: seq<int>, b: seq<int>)
    ensures Encode(a) == Encode(b) <==> CongruentLists(a, b)
  {
    EncodeLength(a);
    EncodeLength(b);
    if |a| == |b| && a != [] {
      var n := |a| - 1;
      EncodeLength(a[..n]);
      EncodeLength(b[..n]);
      EncodeInjective(a[..n], b[..n]);
      NormalizedBytesInjective(a[n], b[n]);
      ConcatInjective(Encode(a[..n]), ToBytes32(Normalize(a[n])), Encode(b[..n]), ToBytes32(Normalize(b[n])));
      SplitLists(a, b);
    }
  }

  lemma SplitLists(a: seq<int>, b: seq<int>)
    requires |a| == |b| && a != []
    ensures var n := |a| - 1;
            CongruentLists(a, b) <==> CongruentLists(a[..n], b[..n]) && Congruent(a[n], b[n])
  {}

  /** The tag lengths differ modulo the length of an encoded value. */
  lemma TagLengths(s: Tag, t: Tag)
    ensures |TagBytes(s)| % 32 == |TagBytes(t)| % 32 <==> s == t
  {}

  /** Equal hash inputs come from the same tag and pairwise congruent values, and from nothing else. */
  lemma DomainSeparation(s: Tag, a: seq<int>, t: Tag, b: seq<int>)
    ensures Preimage(s, a) == Preimage(t, b) <==> s == t && CongruentLists(a, b)
  {
    EncodeLength(a);
    EncodeLength(b);
    EncodeInjective(a, b);
    if Preimage(s, a) == Preimage(t, b) {
      assert |TagBytes(s)| + 32 * |a| == |TagBytes(t)| + 32 * |b|;
      TagLengths(s, t);
      ConcatInjective(TagBytes(s), Encode(a), TagBytes(t), Encode(b));
    }
  }

  // ---------------------------------------------------------------- consequences for the computed values

  lemma NormalizeAllCongruent(values: seq<int>)
    ensures CongruentLists(NormalizeAll(values), values)
  {
    forall i | 0 <= i < |values| ensures Congruent(NormalizeAll(values)[i], values[i]) {
      NormalizeIsResidue(values[i], Normalize(values[i]));
    }
  }

  /** Normalizing before hashing, as the callers do, does not change the hash input. */
  lemma NormalizingTwice(tag: Tag, values: seq<int>)
    ensures Preimage(tag, NormalizeAll(values)) == Preimage(tag, values)
  {
    NormalizeAllCongruent(values);
    DomainSeparation(tag, NormalizeAll(values), tag, values);
  }

  // ---------------------------------------------------------------- decoding a hash input

  /** Reads back the 32-byte values at the end of a byte string. */
  function DecodeValues(bytes: seq<Byte>): seq<int> {
    if |bytes| < 32 then []
    else DecodeValues(bytes[..|bytes| - 32]) + [BigEndian(bytes[|bytes| - 32..])]
  }

  predicate Fits(bytes: seq<Byte>, tag: Tag) {
    TagBytes(tag) <= bytes && (|bytes| - |TagBytes(tag)|) % 32 == 0
  }

  datatype Decoded = Unknown | Decoded(tag: Tag, values: seq<int>)

  function DecodeAs(bytes: seq<Byte>, tag: Tag): Decoded
    requires Fits(bytes, tag)
  {
    Decoded(tag, DecodeValues(bytes[|TagBytes(tag)|..]))
  }

  /** The tag and the field elements of a hash input. */
  function Decode(bytes: seq<Byte>): Decoded {
    if Fits(bytes, ConstraintHash) then DecodeAs(bytes, ConstraintHash)
    else if Fits(bytes, OutputCommitment) then DecodeAs(bytes, OutputCommitment)
    else if Fits(bytes, BindingBase) then DecodeAs(bytes, BindingBase)
    else if Fits(bytes, Binding) then DecodeAs(bytes, Binding)
    else if Fits(bytes, Nullifier) then DecodeAs(bytes, Nullifier)
    else Unknown
  }

  lemma {:induction false} DecodeEncode(values: seq<int>)
    ensures DecodeValues(Encode(values)) == NormalizeAll(values)
  {
    hide ToBytes32, Normalize;
    EncodeLength(values);
    if values != [] {
      var n := |values| - 1;
      var block := ToBytes32(Normalize(values[n]));
      DecodeEncode(values[..n]);
      NormalizedBytes(values[n]);
      assert Encode(values)[..|Encode(values)| - 32] == Encode(values[..n]);
      assert Encode(values)[|Encode(values)| - 32..] == block;
    }
  }

  lemma PreimageFits(tag: Tag, values: seq<int>, other: Tag)
    ensures Fits(Preimage(tag, values), other) <==> other == tag
  {
    hide TagBytes, Encode;
    EncodeLength(values);
    TagLengths(tag, other);
    assert (|TagBytes(tag)| + 32 * |values| - |TagBytes(other)|) % 32 == 0
           <==> |TagBytes(tag)| % 32 == |TagBytes(other)| % 32;
  }

  /** Decoding a hash input gives its tag and the normal forms of its values, in order. */
  lemma DecodePreimage(tag: Tag, values: seq<int>)
    ensures Decode(Preimage(tag, values)) == Decoded(tag, NormalizeAll(values))
  {
    hide TagBytes, Encode;
    forall other: Tag ensures Fits(Preimage(tag, values), other) <==> other == tag {
      PreimageFits(tag, values, other);
    }
    DecodeEncode(values);
    assert Preimage(tag, values)[|TagBytes(tag)|..] == Encode(values);
  }

  // ---------------------------------------------------------------- the five hash inputs

  lemma NullifierIsPreimage(c: int, o: int, s: int)
    ensures NullifierInput(c, o, s) == Preimage(Nullifier, [c, o, s])
  {
    hide ToBytes32, Normalize, TagBytes;
    var values := [c, o, s];
    EncodePrefix(values, 0);
    EncodePrefix(values, 1);
    EncodePrefix(values, 2);
    assert values[..0] == [] && values[..3] == values;
  }

  lemma NormalizeAllTwice(values: seq<int>)
    ensures NormalizeAll(NormalizeAll(values)) == NormalizeAll(values)
  {}

  /** The input is this text in ASCII, and then 32 bytes for each of these values. */
  predicate Reads(input: seq<Byte>, text: string, values: seq<int>) {
    && |text| <= |input| && (forall i :: 0 <= i < |text| ==> input[i] == text[i] as int)
    && input[|text|..] == Encode(values)
  }

  lemma TagReads(tag: Tag, values: seq<int>)
    ensures Reads(Preimage(tag, values), TagText(tag), values)
  {
    hide Encode, TagText;
  }

  /** The five hash inputs written out. */
  lemma InputsRead(
    output: seq<int>, salt: int, task: seq<Byte>, agent: seq<Byte>, base: int, constraint: int, commitment: int, secret: int)
    ensures Reads(ConstraintInput(output), "AGENC_V2_CONSTRAINT_HASH", output)
    ensures Reads(CommitmentInput(output, salt), "AGENC_V2_OUTPUT_COMMITMENT", output + [salt])
    ensures Reads(BindingBaseInput(task, agent), "AGENC_V2_BINDING_BASE", [BigEndian(task), BigEndian(agent)])
    ensures Reads(BindingInput(base, commitment), "AGENC_V2_BINDING", [base, commitment])
    ensures Reads(NullifierInput(constraint, commitment, secret), "AGENC_V2_NULLIFIER", [constraint, commitment, secret])
  {
    hide Preimage, Reads, Normalize, BigEndian;
    NormalizingTwice(ConstraintHash, output);
    TagReads(ConstraintHash, output);
    NormalizingTwice(OutputCommitment, output + [salt]);
    assert NormalizeAll(output) + [Normalize(salt)] == NormalizeAll(output + [salt]);
    TagReads(OutputCommitment, output + [salt]);
    KeysAreIntegers(task, agent);
    TagReads(BindingBase, [BigEndian(task), BigEndian(agent)]);
    BindingIsPreimage(base, commitment);
    TagReads(Binding, [base, commitment]);
    NullifierIsPreimage(constraint, commitment, secret);
    TagReads(Nullifier, [constraint, commitment, secret]);
  }

  lemma BindingIsPreimage(base: int, commitment: int)
    ensures BindingInput(base, commitment) == Preimage(Binding, [base, commitment])
  {
    hide Preimage, Normalize, Congruent;
    NormalizeAllCongruent([commitment]);
    assert Congruent(NormalizeAll([commitment])[0], commitment);
    SelfCongruent(base);
    DomainSeparation(Binding, [base, Normalize(commitment)], Binding, [base, commitment]);
  }

  lemma SelfCongruent(v: int)
    ensures Congruent(v, v)
  {}

  lemma KeysAreIntegers(task: seq<Byte>, agent: seq<Byte>)
    ensures BindingBaseInput(task, agent) == Preimage(BindingBase, [BigEndian(task), BigEndian(agent)])
  {
    hide TagBytes, Encode, BigEndian;
    assert Congruent(FieldOf(task), BigEndian(task)) && Congruent(FieldOf(agent), BigEndian(agent)) by {
      ResidueIsCongruent(BigEndian(task));
      ResidueIsCongruent(BigEndian(agent));
    }
    DomainSeparation(BindingBase, [FieldOf(task), FieldOf(agent)], BindingBase, [BigEndian(task), BigEndian(agent)]);
  }

  lemma ResidueIsCongruent(v: nat)
    ensures Congruent(v % FIELD_MODULUS, v)
  {}

  /** What each value is a hash of: its own tag, and its arguments as field elements in this order. */
  lemma InputsDecode(
    output: seq<int>, salt: int, task: seq<Byte>, agent: seq<Byte>, base: int, commitment: int, constraint: int, secret: int)
    ensures Decode(ConstraintInput(output)) == Decoded(ConstraintHash, NormalizeAll(output))
    ensures Decode(CommitmentInput(output, salt)) == Decoded(OutputCommitment, NormalizeAll(output + [salt]))
    ensures Decode(BindingBaseInput(task, agent)) == Decoded(BindingBase, [FieldOf(task), FieldOf(agent)])
    ensures Decode(BindingInput(base, commitment)) == Decoded(Binding, NormalizeAll([base, commitment]))
    ensures Decode(NullifierInput(constraint, commitment, secret))
            == Decoded(Nullifier, NormalizeAll([constraint, commitment, secret]))
  {
    hide Preimage, Decode, Normalize, FieldOf;
    DecodePreimage(ConstraintHash, NormalizeAll(output));
    NormalizeAllTwice(output);
    DecodePreimage(OutputCommitment, NormalizeAll(output) + [Normalize(salt)]);
    assert NormalizeAll(output) + [Normalize(salt)] == NormalizeAll(output + [salt]);
    NormalizeAllTwice(output + [salt]);
    DecodePreimage(BindingBase, [FieldOf(task), FieldOf(agent)]);
    FieldOfIsNormal(task);
    FieldOfIsNormal(agent);
    assert NormalizeAll([FieldOf(task), FieldOf(agent)]) == [FieldOf(task), FieldOf(agent)];
    DecodePreimage(Binding, [base, Normalize(commitment)]);
    NormalizeAllTwice([commitment]);
    assert Normalize(NormalizeAll([commitment])[0]) == NormalizeAll(NormalizeAll([commitment]))[0];
    assert NormalizeAll([base, Normalize(commitment)]) == NormalizeAll([base, commitment]);
    NullifierIsPreimage(constraint, commitment, secret);
    DecodePreimage(Nullifier, [constraint, commitment, secret]);
  }

  lemma FieldOfIsNormal(bytes: seq<Byte>)
    ensures Normalize(FieldOf(bytes)) == FieldOf(bytes)
  {}

  /** The hash input of an output commitment fixes the outputs and the salt as field elements. */
  lemma CommitmentInputInjective(output: seq<int>, salt: int, output': seq<int>, salt': int)
    ensures CommitmentInput(output, salt) == CommitmentInput(output', salt')
            <==> CongruentLists(output, output') && Congruent(salt, salt')
  {
    hide TagBytes, Encode, Normalize, Congruent;
    assert NormalizeAll(output) + [Normalize(salt)] == NormalizeAll(output + [salt]);
    assert NormalizeAll(output') + [Normalize(salt')] == NormalizeAll(output' + [salt']);
    NormalizingTwice(OutputCommitment, output + [salt]);
    NormalizingTwice(OutputCommitment, output' + [salt']);
    DomainSeparation(OutputCommitment, output + [salt], OutputCommitment, output' + [salt']);
    if |output| == |output'| {
      SplitLists(output + [salt], output' + [salt']);
      assert (output + [salt])[..|output|] == output && (output' + [salt'])[..|output'|] == output';
    }
  }

  /** The hash input of the binding base fixes both keys modulo the field order. */
  lemma BindingBaseInjective(task: seq<Byte>, agent: seq<Byte>, task': seq<Byte>, agent': seq<Byte>)
    ensures BindingBaseInput(task, agent) == BindingBaseInput(task', agent')
            <==> Congruent(BigEndian(task), BigEndian(task')) && Congruent(BigEndian(agent), BigEndian(agent'))
  {
    hide TagBytes, Encode, BigEndian, Congruent;
    var a, b := [FieldOf(task), FieldOf(agent)], [FieldOf(task'), FieldOf(agent')];
    DomainSeparation(BindingBase, a, BindingBase, b);
    ResiduesCongruent(BigEndian(task), BigEndian(task'));
    ResiduesCongruent(BigEndian(agent), BigEndian(agent'));
    assert CongruentLists(a, b) <==> Congruent(a[0], b[0]) && Congruent(a[1], b[1]);
  }

  lemma DigestsEqual(sha: Sha, x: seq<Byte>, y: seq<Byte>)
    requires sha(x) == sha(y) ==> x == y
    ensures BigEndian(sha(x)) == BigEndian(sha(y)) <==> x == y
  {
    if BigEndian(sha(x)) == BigEndian(sha(y)) { BigEndianInjective(sha(x), sha(y)); }
  }

  /**
   With a hash that does not collide on the two inputs, nullifiers are equal exactly when
   constraint hash, commitment and secret are equal as field elements.
   */
  lemma NullifierInjective(sha: Sha, c: int, o: int, s: int, c': int, o': int, s': int)
    requires sha(NullifierInput(c, o, s)) == sha(NullifierInput(c', o', s'))
             ==> NullifierInput(c, o, s) == NullifierInput(c', o', s')
    ensures ComputeNullifier(sha, c, o, s) == ComputeNullifier(sha, c', o', s')
            <==> Congruent(c, c') && Congruent(o, o') && Congruent(s, s')
  {
    hide NullifierInput, Preimage, BigEndian, Congruent;
    var a, b := [c, o, s], [c', o', s'];
    NullifierIsPreimage(c, o, s);
    NullifierIsPreimage(c', o', s');
    DomainSeparation(Nullifier, a, Nullifier, b);
    assert CongruentLists(a, b) <==> Congruent(a[0], b[0]) && Congruent(a[1], b[1]) && Congruent(a[2], b[2]);
    DigestsEqual(sha, NullifierInput(c, o, s), NullifierInput(c', o', s'));
  }

  /** The computed values depend on their arguments only as field elements. */
  lemma ComputedFromFieldElements(
    sha: Sha, output: seq<int>, salt: int, task: seq<Byte>, agent: seq<Byte>, commitment: int,
    output': seq<int>, salt': int, task': seq<Byte>, agent': seq<Byte>, commitment': int)
    ensures CongruentLists(output, output') ==> ComputeConstraintHash(sha, output) == ComputeConstraintHash(sha, output')
    ensures CongruentLists(output, output') && Congruent(salt, salt')
            ==> ComputeOutputCommitment(sha, output, salt) == ComputeOutputCommitment(sha, output', salt')
    ensures Congruent(BigEndian(task), BigEndian(task')) && Congruent(BigEndian(agent), BigEndian(agent'))
            && Congruent(commitment, commitment')
            ==> ComputeBinding(sha, task, agent, commitment) == ComputeBinding(sha, task', agent', commitment')
  {
    hide Preimage, BigEndian, Congruent, Normalize, CommitmentInput, BindingBaseInput;
    NormalizingTwice(ConstraintHash, output);
    NormalizingTwice(ConstraintHash, output');
    DomainSeparation(ConstraintHash, output, ConstraintHash, output');
    CommitmentInputInjective(output, salt, output', salt');
    BindingBaseInjective(task, agent, task', agent');
    NormalizeCongruent(commitment, commitment');
  }

  // ---------------------------------------------------------------- without collisions

  /** The digests of these two inputs do not agree as field elements unless the inputs are the same. */
  predicate NoCollision(sha: Sha, x: seq<Byte>, y: seq<Byte>) {
    Congruent(BigEndian(sha(x)), BigEndian(sha(y))) ==> x == y
  }

  /** What a hash is: the one field element congruent to the digest, all 32 bytes of it. */
  lemma HashIsResidue(sha: Sha, preimage: seq<Byte>, h: int)
    ensures h == HashToField(sha, preimage) <==> 0 <= h < FIELD_MODULUS && Congruent(h, BigEndian(sha(preimage)))
  {
    hide Normalize, BigEndian;
    NormalizeIsRemainder(BigEndian(sha(preimage)));
    NormalizeIsResidue(BigEndian(sha(preimage)), h);
  }

  /** A digest that is the encoding of a field element hashes to that element. */
  lemma HashOfEncoding(sha: Sha, preimage: seq<Byte>, v: int)
    requires sha(preimage) == ToBytes32(Normalize(v))
    ensures HashToField(sha, preimage) == Normalize(v)
  {
    hide Normalize, ToBytes32, Congruent;
    NormalizedBytes(v);
    NormalizeIsResidue(v, Normalize(v));
    FieldElementsAgree(Normalize(v), Normalize(v));
    HashIsResidue(sha, preimage, Normalize(v));
  }

  /** A nullifier is the digest itself: its encoding is all 32 bytes of it, without reduction. */
  lemma NullifierIsDigest(sha: Sha, c: int, o: int, s: int)
    ensures ComputeNullifier(sha, c, o, s) < Pow(256, 32)
    ensures ToBytes32(ComputeNullifier(sha, c, o, s)) == sha(NullifierInput(c, o, s))
  {
    hide NullifierInput, ToBytes32, BigEndian;
    var digest := sha(NullifierInput(c, o, s));
    BigEndianBound(digest);
    ToBytes32IsExact(BigEndian(digest));
    BigEndianInjective(ToBytes32(BigEndian(digest)), digest);
  }

  lemma HashesAgree(sha: Sha, x: seq<Byte>, y: seq<Byte>)
    ensures HashToField(sha, x) == HashToField(sha, y) <==> Congruent(BigEndian(sha(x)), BigEndian(sha(y)))
  {
    hide BigEndian, Normalize;
    NormalizeIsRemainder(BigEndian(sha(x)));
    NormalizeIsRemainder(BigEndian(sha(y)));
    NormalizeCongruent(BigEndian(sha(x)), BigEndian(sha(y)));
  }

  lemma HashesDiffer(sha: Sha, x: seq<Byte>, y: seq<Byte>)
    requires NoCollision(sha, x, y)
    ensures HashToField(sha, x) == HashToField(sha, y) <==> x == y
  {
    hide HashToField, BigEndian, Congruent;
    HashesAgree(sha, x, y);
  }

  /** Constraint hashes are equal exactly when the outputs are, as field elements. */
  lemma ConstraintHashInjective(sha: Sha, output: seq<int>, output': seq<int>)
    requires NoCollision(sha, ConstraintInput(output), ConstraintInput(output'))
    ensures ComputeConstraintHash(sha, output) == ComputeConstraintHash(sha, output') <==> CongruentLists(output, output')
  {
    hide NoCollision, Preimage, HashToField, CongruentLists;
    HashesDiffer(sha, ConstraintInput(output), ConstraintInput(output'));
    NormalizingTwice(ConstraintHash, output);
    NormalizingTwice(ConstraintHash, output');
    DomainSeparation(ConstraintHash, output, ConstraintHash, output');
  }

  /** Output commitments are equal exactly when outputs and salt are, as field elements. */
  lemma OutputCommitmentInjective(sha: Sha, output: seq<int>, salt: int, output': seq<int>, salt': int)
    requires NoCollision(sha, CommitmentInput(output, salt), CommitmentInput(output', salt'))
    ensures ComputeOutputCommitment(sha, output, salt) == ComputeOutputCommitment(sha, output', salt')
            <==> CongruentLists(output, output') && Congruent(salt, salt')
  {
    hide NoCollision, CommitmentInput, HashToField, CongruentLists, Congruent;
    HashesDiffer(sha, CommitmentInput(output, salt), CommitmentInput(output', salt'));
    CommitmentInputInjective(output, salt, output', salt');
  }

  /** The hash input of the binding fixes its base and the commitment as field elements. */
  lemma BindingInputInjective(base: nat, commitment: int, base': nat, commitment': int)
    requires base < FIELD_MODULUS && base' < FIELD_MODULUS
    ensures BindingInput(base, commitment) == BindingInput(base', commitment')
            <==> base == base' && Congruent(commitment, commitment')
  {
    hide Preimage, Congruent, Normalize;
    var a, b := [base, Normalize(commitment)], [base', Normalize(commitment')];
    DomainSeparation(Binding, a, Binding, b);
    assert CongruentLists(a, b) <==> Congruent(a[0], b[0]) && Congruent(a[1], b[1]);
    NormalFormsAgree(commitment, commitment');
    FieldElementsAgree(base, base');
  }

  lemma NormalFormsAgree(a: int, b: int)
    ensures Congruent(Normalize(a), Normalize(b)) <==> Congruent(a, b)
  {
    hide Normalize;
    NormalizeIsResidue(a, Normalize(a));
    NormalizeIsResidue(b, Normalize(b));
    FieldElementsAgree(Normalize(a), Normalize(b));
    NormalizeCongruent(a, b);
  }

  lemma FieldElementsAgree(a: int, b: int)
    requires 0 <= a < FIELD_MODULUS && 0 <= b < FIELD_MODULUS
    ensures Congruent(a, b) <==> a == b
  {}

  lemma HashIsInField(sha: Sha, preimage: seq<Byte>)
    ensures HashToField(sha, preimage) < FIELD_MODULUS
  {}

  /** Bindings are equal exactly when both keys and the commitment are, as field elements. */
  lemma BindingInjective(
    sha: Sha, task: seq<Byte>, agent: seq<Byte>, commitment: int, task': seq<Byte>, agent': seq<Byte>, commitment': int)
    requires NoCollision(sha, BindingBaseInput(task, agent), BindingBaseInput(task', agent'))
    requires var base, base' := HashToField(sha, BindingBaseInput(task, agent)), HashToField(sha, BindingBaseInput(task', agent'));
             NoCollision(sha, BindingInput(base, commitment), BindingInput(base', commitment'))
    ensures ComputeBinding(sha, task, agent, commitment) == ComputeBinding(sha, task', agent', commitment')
            <==> Congruent(BigEndian(task), BigEndian(task')) && Congruent(BigEndian(agent), BigEndian(agent'))
                 && Congruent(commitment, commitment')
  {
    hide NoCollision, HashToField, BindingBaseInput, BindingInput, Congruent, BigEndian;
    var base, base' := HashToField(sha, BindingBaseInput(task, agent)), HashToField(sha, BindingBaseInput(task', agent'));
    HashIsInField(sha, BindingBaseInput(task, agent));
    HashIsInField(sha, BindingBaseInput(task', agent'));
    BindingBaseInjective(task, agent, task', agent');
    BindingInputInjective(base, commitment, base', commitment');
    HashesDiffer(sha, BindingBaseInput(task, agent), BindingBaseInput(task', agent'));
    HashesDiffer(sha, BindingInput(base, commitment), BindingInput(base', commitment'));
  }

  /** `h` is the digest, as a field element, of this text in ASCII followed by 32 bytes for each of these values. */
  ghost predicate IsHashOf(sha: Sha, h: int, text: string, values: seq<int>) {
    exists input :: Reads(input, text, values) && 0 <= h < FIELD_MODULUS && Congruent(h, BigEndian(sha(input)))
  }

  lemma HashOfInput(sha: Sha, input: seq<Byte>, text: string, values: seq<int>)
    requires Reads(input, text, values)
    ensures IsHashOf(sha, HashToField(sha, input), text, values)
  {
    hide Reads, HashToField, Congruent, BigEndian;
    HashIsResidue(sha, input, HashToField(sha, input));
  }

  /** The computed values written out. */
  lemma ComputedValues(
    sha: Sha, output: seq<int>, salt: int, task: seq<Byte>, agent: seq<Byte>, commitment: int) returns (base: int)
    ensures IsHashOf(sha, ComputeConstraintHash(sha, output), "AGENC_V2_CONSTRAINT_HASH", output)
    ensures IsHashOf(sha, ComputeOutputCommitment(sha, output, salt), "AGENC_V2_OUTPUT_COMMITMENT", output + [salt])
    ensures IsHashOf(sha, base, "AGENC_V2_BINDING_BASE", [BigEndian(task), BigEndian(agent)])
    ensures IsHashOf(sha, ComputeBinding(sha, task, agent, commitment), "AGENC_V2_BINDING", [base, commitment])
  {
    hide Reads, HashToField, IsHashOf, ConstraintInput, CommitmentInput, BindingBaseInput, BindingInput, BigEndian;
    base := HashToField(sha, BindingBaseInput(task, agent));
    InputsRead(output, salt, task, agent, base, 0, commitment, 0);
    HashOfInput(sha, ConstraintInput(output), "AGENC_V2_CONSTRAINT_HASH", output);
    HashOfInput(sha, CommitmentInput(output, salt), "AGENC_V2_OUTPUT_COMMITMENT", output + [salt]);
    HashOfInput(sha, BindingBaseInput(task, agent), "AGENC_V2_BINDING_BASE", [BigEndian(task), BigEndian(agent)]);
    HashOfInput(sha, BindingInput(base, commitment), "AGENC_V2_BINDING", [base, commitment]);
  }
}
