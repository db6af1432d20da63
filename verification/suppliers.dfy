/** The supplier directory (components/Suppliers.tsx): onboarding a partner
    with an id derived from its position in the list. */
module Suppliers {
  import opened Types
  import opened Text
  import opened App

  /** The fields the onboarding form submits. */
  datatype SupplierForm = SupplierForm(name: string, contactPerson: string, email: string, phone: string)

  /** The id a supplier at (zero-based) position `i` is given: "s1", "s2", ... */
  function PositionalId(i: nat): string
  {
    "s" + NatToString(i + 1)
  }

  /** `handleAddSupplier`: appends the partner with id "s" followed by the new
      length, and writes one `SUPPLIER` audit entry; nothing else changes. */
  function OnboardSupplier(s: AppState, f: SupplierForm, logId: string, now: int): (r: AppState)
    ensures |r.suppliers| == |s.suppliers| + 1
    ensures r.suppliers[..|s.suppliers|] == s.suppliers
    ensures r.suppliers[|s.suppliers|] == Supplier(PositionalId(|s.suppliers|), f.name, f.contactPerson, f.email, f.phone)
    ensures r.(suppliers := s.suppliers, logs := s.logs) == s
    ensures LoggedOnce(s, r, logId, now, "SUPPLIER")
    ensures r.logs[0].details == "Onboarded new partner: " + f.name
  {
    var partner := Supplier("s" + NatToString(|s.suppliers| + 1), f.name, f.contactPerson, f.email, f.phone);
    AddLog(s.(suppliers := s.suppliers + [partner]), logId, now, "SUPPLIER", "Onboarded new partner: " + f.name)
  }

  /** Every supplier carries the id of its position. */
  ghost predicate PositionalIds(sups: seq<Supplier>)
  {
    forall i :: 0 <= i < |sups| ==> sups[i].id == PositionalId(i)
  }

  /** Onboarding keeps every supplier at the id of its position. */
  lemma OnboardKeepsPositionalIds(s: AppState, f: SupplierForm, logId: string, now: int)
    requires PositionalIds(s.suppliers)
    ensures PositionalIds(OnboardSupplier(s, f, logId, now).suppliers)
  {
    var sups := OnboardSupplier(s, f, logId, now).suppliers;
    forall i | 0 <= i < |sups| ensures sups[i].id == PositionalId(i) {
      if i < |s.suppliers| {
        assert sups[i] == sups[..|s.suppliers|][i];
      }
    }
  }

  /** The two seeded suppliers are "s1" and "s2", so the ids start positional. */
  lemma InitialSuppliersArePositional(now: int)
    ensures PositionalIds(InitialState(now).suppliers)
  {
    assert NatToString(1) == "1" && NatToString(2) == "2";
  }

  /** Positional ids never collide, so while suppliers are only ever added the
      directory's ids stay unique. */
  lemma PositionalIdsAreDistinct(sups: seq<Supplier>)
    requires PositionalIds(sups)
    ensures forall i, j :: 0 <= i < j < |sups| ==> sups[i].id != sups[j].id
  {
    forall i, j | 0 <= i < j < |sups|
      ensures sups[i].id != sups[j].id
    {
      if sups[i].id == sups[j].id {
        assert PositionalId(i)[1..] == NatToString(i + 1);
        assert PositionalId(j)[1..] == NatToString(j + 1);
        NatToStringInjective(i + 1, j + 1);
      }
    }
  }
}
