/** Documents as the program holds them, and the comparison that decides whether a site is published again. */
module Json {
  import opened Basics

  /** The keys of desired-state documents, interfaces, peers and ownership rows. */
  datatype Field =
    | SchemaVersion | Site | Generation | DesiredStateVersion | RouteVersion | OwnershipEpoch | PreferredHub
    | StandbyHub | ActiveTargetBySlot | Interfaces | RouteOwnership | EgressPolicy | ConfigurationDigest
    | InterfaceName | Address | ListenPort | RouteTable | TransportSlot | Hub | Peers | Routes
    | PeerId | PublicKey | Endpoint | AllowedIps | Keepalive
    | Prefix | Spoke | CurrentOwnerHub | PreviousOwnerHub | OwnerEpoch | PolicyVersion | RowState | Reason
    | UpdatedAt | ValidUntil | PendingReconciliation | PrivatePrefixes | Slot(transport: nat)

  /** `Setting` is a text that the configuration determines from the names it is about; `Digest` is the text of a
      document's digest, modelled by the document. */
  datatype Json =
    | Null
    | Number(value: nat)
    | Text(name: Name)
    | Setting(what: Field, about: seq<Name>)
    | Digest(document: Json)
    | List(items: seq<Json>)
    | Tuple(items: seq<Json>)
    | Object(fields: map<Field, Json>)

  predicate IsVersionField(f: Field) {
    f.ConfigurationDigest? || f.Generation? || f.DesiredStateVersion? || f.RouteVersion? || f.OwnershipEpoch?
  }

  /** What is compared: mappings lose their version fields; lists are entered, tuples are not. */
  function Effective(j: Json): Json {
    match j
    case Object(fields) => Object(map f | f in fields && !IsVersionField(f) :: Effective(fields[f]))
    case List(items) => List(seq(|items|, k requires 0 <= k < |items| => Effective(items[k])))
    case _ => j
  }

  /** The value that a document's canonical text denotes, which is also what the store returns: a tuple is written as a
      list. Equal texts are equal values. */
  function Written(j: Json): Json {
    match j
    case Object(fields) => Object(map f | f in fields :: Written(fields[f]))
    case List(items) => List(seq(|items|, k requires 0 <= k < |items| => Written(items[k])))
    case Tuple(items) => List(seq(|items|, k requires 0 <= k < |items| => Written(items[k])))
    case _ => j
  }

  /** The compiler's test, between the document published last, read back from the store, and one just built. */
  predicate Differs(published: Json, built: Json) {
    Written(Effective(Written(published))) != Written(Effective(built))
  }

  // ----- what the comparison sees

  /** What the store's copy of a document is compared as. */
  function Stripped(j: Json): Json { Effective(Written(j)) }

  /** Some mapping of the document, at any depth, has a version field. */
  predicate HasVersionField(j: Json) {
    match j
    case Object(fields) => exists f :: f in fields && (IsVersionField(f) || HasVersionField(fields[f]))
    case List(items) => exists k :: 0 <= k < |items| && HasVersionField(items[k])
    case Tuple(items) => exists k :: 0 <= k < |items| && HasVersionField(items[k])
    case _ => false
  }

  /** A version field lies under a tuple that `Effective` reaches. */
  predicate Shielded(j: Json) {
    match j
    case Object(fields) => exists f :: f in fields && !IsVersionField(f) && Shielded(fields[f])
    case List(items) => exists k :: 0 <= k < |items| && Shielded(items[k])
    case Tuple(items) => HasVersionField(j)
    case _ => false
  }

  /** Read back from the store, a document loses its version fields at every depth, and is its own text. */
  lemma {:induction false} ReadBackIsStripped(j: Json)
    ensures !HasVersionField(Effective(Written(j)))
    ensures Written(Effective(Written(j))) == Effective(Written(j))
  {
    if j.Object? {
      forall f | f in j.fields
        ensures !HasVersionField(Effective(Written(j.fields[f])))
        ensures Written(Effective(Written(j.fields[f]))) == Effective(Written(j.fields[f]))
      {
        ReadBackIsStripped(j.fields[f]);
      }
    } else if j.List? || j.Tuple? {
      forall k | 0 <= k < |j.items|
        ensures !HasVersionField(Effective(Written(j.items[k])))
        ensures Written(Effective(Written(j.items[k]))) == Effective(Written(j.items[k]))
      {
        ReadBackIsStripped(j.items[k]);
      }
    }
  }

  /** Writing a document keeps its version fields; without any, the comparison drops nothing from the text. */
  lemma {:induction false} WrittenKeepsVersionFields(j: Json)
    ensures HasVersionField(Written(j)) <==> HasVersionField(j)
    ensures !HasVersionField(j) ==> Effective(Written(j)) == Written(j)
  {
    if j.Object? {
      forall f | f in j.fields
        ensures HasVersionField(Written(j.fields[f])) <==> HasVersionField(j.fields[f])
        ensures !HasVersionField(j.fields[f]) ==> Effective(Written(j.fields[f])) == Written(j.fields[f])
      {
        WrittenKeepsVersionFields(j.fields[f]);
      }
      assert Written(j).fields.Keys == j.fields.Keys;
    } else if j.List? || j.Tuple? {
      forall k | 0 <= k < |j.items|
        ensures HasVersionField(Written(j).items[k]) <==> HasVersionField(j.items[k])
        ensures !HasVersionField(j.items[k]) ==> Effective(Written(j.items[k])) == Written(j.items[k])
      {
        WrittenKeepsVersionFields(j.items[k]);
      }
    }
  }

  /** A document just built keeps a version field in the comparison exactly when a tuple shields one. */
  lemma {:induction false} BuiltKeepsShielded(j: Json)
    ensures HasVersionField(Written(Effective(j))) <==> Shielded(j)
  {
    if j.Object? {
      forall f | f in j.fields && !IsVersionField(f)
        ensures HasVersionField(Written(Effective(j.fields[f]))) <==> Shielded(j.fields[f])
      {
        BuiltKeepsShielded(j.fields[f]);
      }
    } else if j.List? {
      forall k | 0 <= k < |j.items|
        ensures HasVersionField(Written(Effective(j)).items[k]) <==> Shielded(j.items[k])
      {
        BuiltKeepsShielded(j.items[k]);
      }
    } else if j.Tuple? {
      WrittenKeepsVersionFields(j);
    }
  }

  /** Otherwise it is compared as it would be after a trip through the store. */
  lemma {:induction false} BuiltIsStripped(j: Json)
    requires !Shielded(j)
    ensures Written(Effective(j)) == Effective(Written(j))
  {
    if j.Object? {
      forall f | f in j.fields && !IsVersionField(f)
        ensures Written(Effective(j.fields[f])) == Effective(Written(j.fields[f]))
      {
        BuiltIsStripped(j.fields[f]);
      }
    } else if j.List? {
      forall k | 0 <= k < |j.items|
        ensures Written(Effective(j.items[k])) == Effective(Written(j.items[k]))
      {
        BuiltIsStripped(j.items[k]);
      }
    } else if j.Tuple? {
      WrittenKeepsVersionFields(j);
    }
  }

  /** Over every pair of documents: the compiler sees no difference exactly when the two agree on everything but version
      fields and no tuple shields a version field in the one just built. */
  lemma ComparisonIsExact(published: Json, built: Json)
    ensures !Differs(published, built) <==>
            !Shielded(built) && Stripped(published) == Stripped(built)
  {
    ReadBackIsStripped(published);
    BuiltKeepsShielded(built);
    if !Shielded(built) {
      BuiltIsStripped(built);
    }
  }

  /** In particular a document built again without any change is recognized exactly when no tuple shields a version
      field in it. */
  lemma UnchangedIsRecognized(j: Json)
    ensures !Differs(j, j) <==> !Shielded(j)
  {
    ComparisonIsExact(j, j);
  }

  // ----- the fields of a compared document

  lemma StrippedField(j: Json, f: Field)
    requires j.Object? && f in j.fields && !IsVersionField(f)
    ensures Stripped(j).Object? && f in Stripped(j).fields && Stripped(j).fields[f] == Stripped(j.fields[f])
  {
  }

  /** Two mappings with the same fields are compared as equal exactly when every field but the versions is. */
  lemma StrippedEqual(a: Json, b: Json)
    requires a.Object? && b.Object? && a.fields.Keys == b.fields.Keys
    ensures Stripped(a) == Stripped(b) <==>
            forall f :: f in a.fields && !IsVersionField(f) ==> Stripped(a.fields[f]) == Stripped(b.fields[f])
  {
    forall f | f in a.fields && !IsVersionField(f)
      ensures f in Stripped(a).fields && Stripped(a).fields[f] == Stripped(a.fields[f])
      ensures f in Stripped(b).fields && Stripped(b).fields[f] == Stripped(b.fields[f])
    {
      StrippedField(a, f);
      StrippedField(b, f);
    }
    assert forall f :: f in Stripped(a).fields <==> f in a.fields && !IsVersionField(f);
    assert forall f :: f in Stripped(b).fields <==> f in b.fields && !IsVersionField(f);
    assert Stripped(a) == Stripped(b) <==> Stripped(a).fields == Stripped(b).fields;
  }

  lemma ShieldedAt(j: Json, at: Field, there: bool)
    requires j.Object? && at in j.fields && !IsVersionField(at)
    requires forall f :: f in j.fields && !IsVersionField(f) ==> (Shielded(j.fields[f]) <==> f == at && there)
    ensures Shielded(j) <==> there
  {
  }
}
