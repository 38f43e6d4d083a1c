/**
 * The fixed catalogue of ten salons the page lists. Salon `i` (counting
 * from 0) is called "Salon <i+1> - QikGlam" and offers the same four
 * services, in the same order, at prices that grow with `i`.
 */
module Salons {
  import opened Text

  datatype Service = Service(name: string, price: int)

  datatype Salon = Salon(name: string, services: seq<Service>)

  const SalonCount := 10

  /** The service names every salon offers, in the order its menu lists them. */
  const Menu: seq<string> := ["Haircut", "Facial", "Manicure", "Pedicure"]

  /**
   * `f"Salon {i+1} - QikGlam"`: the fixed prefix and suffix around the
   * salon's 1-based number, whose digits read back as that number.
   */
  function SalonName(i: nat): (r: string)
    ensures |r| > 16 && r[..6] == "Salon " && r[|r| - 10..] == " - QikGlam"
    ensures AllDigits(r[6..|r| - 10]) && DecimalValue(r[6..|r| - 10]) == i + 1
  {
    var r := "Salon " + Decimal(i + 1) + " - QikGlam";
    assert r[6..|r| - 10] == Decimal(i + 1);
    DecimalRoundTrip(i + 1);
    r
  }

  function MakeSalon(i: nat): Salon {
    Salon(SalonName(i), [
      Service("Haircut", 200 + i * 10),
      Service("Facial", 500 + i * 10),
      Service("Manicure", 300 + i * 5),
      Service("Pedicure", 350 + i * 5)
    ])
  }

  /** The names of a salon's services, in menu order (`salon["services"].keys()`). */
  function ServiceNames(salon: Salon): seq<string> {
    seq(|salon.services|, k requires 0 <= k < |salon.services| => salon.services[k].name)
  }

  /** `salons_data`: ten salons, each offering exactly the four menu services. */
  function SalonsData(): (r: seq<Salon>)
    ensures |r| == SalonCount
    ensures forall i :: 0 <= i < |r| ==> r[i].name == SalonName(i)
    ensures forall i :: 0 <= i < |r| ==> ServiceNames(r[i]) == Menu
  {
    seq(SalonCount, i requires 0 <= i < SalonCount => MakeSalon(i))
  }

  /** Two salons with the same name are the same salon. */
  lemma SalonNameInjective(i: nat, j: nat)
    requires SalonName(i) == SalonName(j)
    ensures i == j
  {
    var prefix := "Salon ";
    var a, b := Decimal(i + 1), Decimal(j + 1);
    assert |a| == |b|;
    assert a == SalonName(i)[|prefix|..|prefix| + |a|];
    assert b == SalonName(j)[|prefix|..|prefix| + |b|];
    DecimalInjective(i + 1, j + 1);
  }

  /**
   * No two salons of the catalogue share a name, so the salon name a
   * booking records identifies the salon.
   */
  lemma SalonNamesDistinct(i: nat, j: nat)
    requires i < j < |SalonsData()|
    ensures SalonsData()[i].name != SalonsData()[j].name
  {
    if SalonsData()[i].name == SalonsData()[j].name {
      SalonNameInjective(i, j);
    }
  }

  /** Every service costs strictly more at a salon further down the list. */
  lemma PricesRise(i: nat, j: nat, k: nat)
    requires i < j < |SalonsData()| && k < |Menu|
    ensures |SalonsData()[i].services| == |SalonsData()[j].services| == |Menu|
    ensures SalonsData()[i].services[k].price < SalonsData()[j].services[k].price
  {
    assert SalonsData()[i] == MakeSalon(i) && SalonsData()[j] == MakeSalon(j);
  }
}
