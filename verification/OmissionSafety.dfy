/** The omission path from ownership to payload, end to end. */
module OmissionSafety {
  import opened JsonData
  import opened Bindings
  import opened Ownership
  import Checker = WitnessChecker
  import Supplier = OmissionSupplier
  import Completeness = OmissionCompleteness

  lemma {:induction false} PlacedFrom(entries: seq<Decided>, p: Path)
    requires Supplier.Place(entries).Some?
    requires Supplier.Placed(p, Exclusive) in Supplier.Place(entries).value
    ensures exists i :: 0 <= i < |entries| && entries[i] == Decided(Binding("data", p), Exclusive)
  {
    var rest := Supplier.Place(entries[1..]).value;
    if Supplier.Placed(p, Exclusive) in rest {
      PlacedFrom(entries[1..], p);
      var i :| 0 <= i < |entries[1..]| && entries[1..][i] == Decided(Binding("data", p), Exclusive);
      assert entries[i + 1] == entries[1..][i];
    } else {
      assert entries[0].binding == Binding("data", entries[0].binding.segments);
      assert entries[0] == Decided(Binding("data", p), Exclusive);
    }
  }

  /** Every path the producer removes is the binding of an owner decided exclusive. */
  lemma OmittedIsExclusive(root: Json, m: Model, current: bool, r: Path)
    requires Supplier.Place(DecideAll(m, m.fields, current)).Some?
    requires Supplier.Place(DecideAll(m, m.repeaters, current)).Some?
    requires r in Supplier.OmittedPaths(root, Supplier.Place(DecideAll(m, m.fields, current)).value,
                                        Supplier.Place(DecideAll(m, m.repeaters, current)).value)
    ensures exists o :: (o in m.fields || o in m.repeaters) && o.binding == Binding("data", r) && Decide(m, o, current).Exclusive?
  {
    var fields, repeaters := DecideAll(m, m.fields, current), DecideAll(m, m.repeaters, current);
    if Supplier.Placed(r, Exclusive) in Supplier.Place(fields).value {
      PlacedFrom(fields, r);
      var i :| 0 <= i < |fields| && fields[i] == Decided(Binding("data", r), Exclusive);
      assert m.fields[i] in m.fields;
    } else {
      PlacedFrom(repeaters, r);
      var i :| 0 <= i < |repeaters| && repeaters[i] == Decided(Binding("data", r), Exclusive);
      assert m.repeaters[i] in m.repeaters;
    }
  }

  /** The decisions of a model turned into a projection of the data they were taken on. */
  ghost predicate Projected(root: Json, m: Model, current: bool, d: Json, w: Checker.Witness) {
    Completeness.ProducedFor(root, DecideAll(m, m.fields, current), DecideAll(m, m.repeaters, current), d, w)
  }

  /** Whatever leaf of the capture the projection lost was owned: some field's binding names or
      extends it, and no visible field, and none that is submitted while hidden, touches it. */
  lemma LostLeafIsInactive(root: Json, fields: seq<Owner>, repeaters: seq<Owner>, diagnostics: bool, omitInactive: bool,
                           current: bool, d: Json, w: Checker.Witness, l: Path)
    requires Ordered(root)
    requires Projected(root, ModelOf(root, fields, repeaters, diagnostics, omitInactive), current, d, w)
    requires At(root, l).Some? && IsLeaf(At(root, l).value) && At(d, l).None?
    ensures var m := ModelOf(root, fields, repeaters, diagnostics, omitInactive);
      && (exists f :: f in m.fields && Claims(f, l))
      && (forall f :: f in m.fields && Overlaps(f.binding, Binding("data", l)) ==> !IsActive(f))
  {
    var m := ModelOf(root, fields, repeaters, diagnostics, omitInactive);
    Supplier.RemoveAllAt(root, w.omitted, l);
    var i :| 0 <= i < |w.omitted| && w.omitted[i] <= l;
    OmittedIsExclusive(root, m, current, w.omitted[i]);
    var o :| (o in m.fields || o in m.repeaters) && o.binding == Binding("data", w.omitted[i]) && Decide(m, o, current).Exclusive?;
    OmissionIsSafe(root, fields, repeaters, diagnostics, omitInactive, current, o, l);
  }

  // ---- when the decisions can be projected ----

  lemma {:induction false} PlacedWhenTypable(entries: seq<Decided>)
    ensures Supplier.Place(entries).Some? <==> forall i :: 0 <= i < |entries| ==> Typable(entries[i].binding)
  {
    if entries != [] {
      PlacedWhenTypable(entries[1..]);
      assert forall i :: 0 < i < |entries| ==> entries[i] == entries[1..][i - 1];
    }
  }

  lemma {:induction false} UnknownPlacedWhenTypable(unknown: seq<Binding>)
    ensures Supplier.PlaceUnknown(unknown).Some? <==> forall u :: u in unknown && u.namespace == "data" ==> Typable(u)
    ensures Supplier.PlaceUnknown(unknown).Some? ==>
      forall p :: p in Supplier.PlaceUnknown(unknown).value ==> Binding("data", p) in unknown
  {
    if unknown != [] {
      UnknownPlacedWhenTypable(unknown[1..]);
      assert forall u :: u in unknown <==> u == unknown[0] || u in unknown[1..];
      assert unknown[0] == Binding(unknown[0].namespace, unknown[0].segments);
    }
  }

  ghost predicate AllTypable(owners: seq<Owner>) {
    forall i :: 0 <= i < |owners| ==> Typable(owners[i].binding)
  }

  lemma OwnersPlaced(m: Model, os: seq<Owner>, current: bool)
    ensures Supplier.Place(DecideAll(m, os, current)).Some? <==> AllTypable(os)
  {
    PlacedWhenTypable(DecideAll(m, os, current));
  }

  /** The paths removed for the decisions of a model. */
  ghost function OmittedFor(root: Json, m: Model, current: bool): seq<Path>
    requires Supplier.Place(DecideAll(m, m.fields, current)).Some? && Supplier.Place(DecideAll(m, m.repeaters, current)).Some?
  {
    Supplier.OmittedPaths(root, Supplier.Place(DecideAll(m, m.fields, current)).value,
                          Supplier.Place(DecideAll(m, m.repeaters, current)).value)
  }

  /** What the ownership rules guarantee of every path they let the producer remove: it names a record
      field that is present, and nothing unknown overlaps it. */
  lemma OmittedIsRemovable(root: Json, fields: seq<Owner>, repeaters: seq<Owner>, diagnostics: bool, omitInactive: bool,
                           current: bool, r: Path)
    requires Snapshot(fields, root)
    requires var m := ModelOf(root, fields, repeaters, diagnostics, omitInactive);
      && Supplier.Place(DecideAll(m, m.fields, current)).Some? && Supplier.Place(DecideAll(m, m.repeaters, current)).Some?
      && r in OmittedFor(root, m, current)
    ensures Supplier.Removable(root, r)
    ensures forall u :: u in ModelOf(root, fields, repeaters, diagnostics, omitInactive).unknown ==> !Overlaps(u, Binding("data", r))
  {
    var m := ModelOf(root, fields, repeaters, diagnostics, omitInactive);
    OmittedIsExclusive(root, m, current, r);
    var o :| (o in m.fields || o in m.repeaters) && o.binding == Binding("data", r) && Decide(m, o, current).Exclusive?;
    ExclusiveIsClear(m, o, current);
    if Supplier.Placed(r, Exclusive) in Supplier.Place(DecideAll(m, m.fields, current)).value {
      PlacedFrom(DecideAll(m, m.fields, current), r);
      var i :| 0 <= i < |m.fields| && DecideAll(m, m.fields, current)[i] == Decided(Binding("data", r), Exclusive);
      ExclusiveIsBound(root, fields, repeaters, diagnostics, omitInactive, current, i);
    }
  }

  /** All removed paths are apart, no other present field overlaps one, and every array one goes
      through can be anchored. */
  ghost predicate Separable(root: Json, omitted: seq<Path>, others: seq<Path>) {
    && Supplier.Apart(omitted) && !Supplier.ProtectionClash(root, others, omitted)
    && (match Supplier.RemoveAll(root, omitted)
        case None => true
        case Some(d) => forall a :: Checker.IndexedArray(omitted, a) ==> Supplier.Anchorable(root, d, a))
  }

  /** The decisions of an ownership model can be projected exactly when the data can be cloned, every
      binding and every unknown position can be typed, and the removed paths are separable: their
      presence and their distance from unknown data follow from the ownership rules. */
  lemma ProjectableIffSeparable(root: Json, fields: seq<Owner>, repeaters: seq<Owner>, diagnostics: bool, omitInactive: bool, current: bool)
    requires Snapshot(fields, root)
    ensures (var m := ModelOf(root, fields, repeaters, diagnostics, omitInactive);
      Supplier.Projectable(root, DecideAll(m, m.fields, current), DecideAll(m, m.repeaters, current), m.unknown) <==>
        && Supplier.Cloneable(root) && AllTypable(m.fields) && AllTypable(m.repeaters)
        && (forall u :: u in m.unknown && u.namespace == "data" ==> Typable(u))
        && Supplier.Place(DecideAll(m, m.fields, current)).Some? && Supplier.Place(DecideAll(m, m.repeaters, current)).Some?
        && Separable(root, OmittedFor(root, m, current), Supplier.OtherPaths(Supplier.Place(DecideAll(m, m.fields, current)).value)))
  {
    var m := ModelOf(root, fields, repeaters, diagnostics, omitInactive);
    OwnersPlaced(m, m.fields, current);
    OwnersPlaced(m, m.repeaters, current);
    UnknownPlacedWhenTypable(m.unknown);
    if AllTypable(m.fields) && AllTypable(m.repeaters) && Supplier.PlaceUnknown(m.unknown).Some? {
      OmittedFits(root, fields, repeaters, diagnostics, omitInactive, current);
      if Supplier.Apart(OmittedFor(root, m, current)) {
        Supplier.RemoveAllDefined(root, OmittedFor(root, m, current));
      }
    }
  }

  lemma OmittedFits(root: Json, fields: seq<Owner>, repeaters: seq<Owner>, diagnostics: bool, omitInactive: bool, current: bool)
    requires Snapshot(fields, root)
    requires var m := ModelOf(root, fields, repeaters, diagnostics, omitInactive);
      && Supplier.Place(DecideAll(m, m.fields, current)).Some? && Supplier.Place(DecideAll(m, m.repeaters, current)).Some?
      && Supplier.PlaceUnknown(m.unknown).Some?
    ensures var m := ModelOf(root, fields, repeaters, diagnostics, omitInactive);
      && Supplier.EachRemovable(root, OmittedFor(root, m, current))
      && Supplier.Clear(Supplier.PlaceUnknown(m.unknown).value, OmittedFor(root, m, current))
  {
    var m := ModelOf(root, fields, repeaters, diagnostics, omitInactive);
    var omitted, unknown := OmittedFor(root, m, current), Supplier.PlaceUnknown(m.unknown).value;
    UnknownPlacedWhenTypable(m.unknown);
    forall r | r in omitted
      ensures Supplier.Removable(root, r) && forall u :: u in m.unknown ==> !Overlaps(u, Binding("data", r))
    {
      OmittedIsRemovable(root, fields, repeaters, diagnostics, omitInactive, current, r);
    }
    forall i | 0 <= i < |unknown| ensures !Supplier.AnyOverlap(omitted, unknown[i]) {
      assert Binding("data", unknown[i]) in m.unknown;
    }
  }

  /** Capture to checked payload: ownership, decision, projection and the independent check, in the
      order of `projectBoundOmission`. A payload comes out exactly when the form is current and without
      diagnostics, its decisions can be projected and their witness fits the cap. */
  method ProjectCapture(root: Json, fields: seq<Owner>, repeaters: seq<Owner>, diagnostics: bool, omitInactive: bool, current: bool)
    returns (r: Option<(Json, Checker.Witness)>)
    requires Ordered(root)
    ensures (var m := ModelOf(root, fields, repeaters, diagnostics, omitInactive);
      && (r.Some? <==>
            !diagnostics && current
            && Completeness.Checkable(root, DecideAll(m, m.fields, current), DecideAll(m, m.repeaters, current), m.unknown))
      && (r.Some? ==> Projected(root, m, current, r.value.0, r.value.1) && Checker.Accepts(r.value.1, root, r.value.0, r.value.0)))
  {
    var m := ProjectOwnership(root, fields, repeaters, diagnostics, omitInactive);
    var decidedFields, decidedRepeaters := DecideExclusiveBindings(m, current);
    if diagnostics || !current { return None; }
    r := Completeness.ProjectBoundOmission(root, decidedFields, decidedRepeaters, m.unknown);
  }
}
