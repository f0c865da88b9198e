/**
 * The dashboard's figures, computed from the lists the two `getAll`
 * calls return: total capacity and stock, the active and operational
 * counts, the utilisation percentage and the two five-row tables.
 */
module Dashboard {
  import opened Schema
  import Seqs

  function Capacity(w: Warehouse): real {
    w.capacity
  }

  function Stock(w: Warehouse): real {
    w.currentStock
  }

  /** `warehouses.reduce((sum, w) => sum + w.capacity, 0)`. */
  function TotalCapacity(ws: seq<Warehouse>): real {
    Seqs.FoldSum(ws, Capacity, 0.0)
  }

  /** `warehouses.reduce((sum, w) => sum + w.currentStock, 0)`. */
  function TotalStock(ws: seq<Warehouse>): real {
    Seqs.FoldSum(ws, Stock, 0.0)
  }

  /** Both totals are the sums of their field over the list, 0 for no warehouses. */
  lemma TotalsAreSums(ws: seq<Warehouse>)
    ensures TotalCapacity(ws) == Seqs.Sum(ws, Capacity)
    ensures TotalStock(ws) == Seqs.Sum(ws, Stock)
    ensures ws == [] ==> TotalCapacity(ws) == 0.0 && TotalStock(ws) == 0.0
  {
    TotalCapacityIsSum(ws);
    TotalStockIsSum(ws);
  }

  /** The capacity `reduce`, seeded with 0, adds up every warehouse's capacity. */
  lemma TotalCapacityIsSum(ws: seq<Warehouse>)
    ensures TotalCapacity(ws) == Seqs.Sum(ws, Capacity)
  {
    Seqs.FoldSumIsSum(ws, Capacity, 0.0);
  }

  /** The stock `reduce`, seeded with 0, adds up every warehouse's current stock. */
  lemma TotalStockIsSum(ws: seq<Warehouse>)
    ensures TotalStock(ws) == Seqs.Sum(ws, Stock)
  {
    Seqs.FoldSumIsSum(ws, Stock, 0.0);
  }

  /** One more warehouse adds its capacity and its stock to the totals. */
  lemma TotalsAppend(ws: seq<Warehouse>, w: Warehouse)
    ensures TotalCapacity(ws + [w]) == TotalCapacity(ws) + w.capacity
    ensures TotalStock(ws + [w]) == TotalStock(ws) + w.currentStock
  {
    TotalsAreSums(ws);
    TotalsAreSums(ws + [w]);
    Seqs.SumAppend(ws, [w], Capacity);
    Seqs.SumAppend(ws, [w], Stock);
  }

  /** Over documents the schema accepted (`min: 0` on both numbers) the totals are not negative. */
  lemma TotalsNonNegative(ws: seq<Warehouse>)
    requires forall i :: 0 <= i < |ws| ==> ValidWarehouse(ws[i])
    ensures TotalCapacity(ws) >= 0.0 && TotalStock(ws) >= 0.0
  {
    TotalsAreSums(ws);
    Seqs.SumNonNegative(ws, Capacity);
    Seqs.SumNonNegative(ws, Stock);
  }

  predicate IsActive(s: Supplier) {
    s.status == "active"
  }

  predicate IsOperational(w: Warehouse) {
    w.status == "operational"
  }

  /** `suppliers.filter(s => s.status === 'active').length`. */
  function ActiveSuppliers(ss: seq<Supplier>): (n: nat)
    ensures n <= |ss|
    ensures n == |ss| <==> forall i :: 0 <= i < |ss| ==> IsActive(ss[i])
  {
    |Seqs.Filter(ss, IsActive)|
  }

  /** `warehouses.filter(w => w.status === 'operational').length`. */
  function OperationalWarehouses(ws: seq<Warehouse>): (n: nat)
    ensures n <= |ws|
    ensures n == |ws| <==> forall i :: 0 <= i < |ws| ==> IsOperational(ws[i])
  {
    |Seqs.Filter(ws, IsOperational)|
  }

  /** Each count goes up by one for an added document with the status, and stays otherwise. */
  lemma CountsAppend(ss: seq<Supplier>, s: Supplier, ws: seq<Warehouse>, w: Warehouse)
    ensures ActiveSuppliers(ss + [s]) == ActiveSuppliers(ss) + (if IsActive(s) then 1 else 0)
    ensures OperationalWarehouses(ws + [w]) == OperationalWarehouses(ws) + (if IsOperational(w) then 1 else 0)
  {
    Seqs.FilterAppend(ss, s, IsActive);
    Seqs.FilterAppend(ws, w, IsOperational);
  }

  /**
   * The "% capacity" figure before `Math.round`: 0 when the total capacity
   * is not positive, so nothing is divided by zero.
   */
  function Utilisation(ws: seq<Warehouse>): (u: real)
    ensures TotalCapacity(ws) <= 0.0 ==> u == 0.0
    ensures TotalCapacity(ws) > 0.0 ==> u * TotalCapacity(ws) == TotalStock(ws) * 100.0
  {
    var capacity := TotalCapacity(ws);
    if capacity > 0.0 then TotalStock(ws) / capacity * 100.0 else 0.0
  }

  /**
   * When no warehouse holds more than its capacity, the figure is a
   * percentage between 0 and 100; the schema does not enforce that.
   */
  lemma UtilisationBounded(ws: seq<Warehouse>)
    requires forall i :: 0 <= i < |ws| ==> ValidWarehouse(ws[i]) && ws[i].currentStock <= ws[i].capacity
    ensures 0.0 <= Utilisation(ws) <= 100.0
  {
    TotalsAreSums(ws);
    TotalsNonNegative(ws);
    Seqs.SumMonotone(ws, Stock, Capacity);
    if TotalCapacity(ws) > 0.0 {
      PercentBounded(TotalStock(ws), TotalCapacity(ws));
    }
  }

  lemma PercentBounded(part: real, whole: real)
    requires 0.0 <= part <= whole && whole > 0.0
    ensures 0.0 <= part / whole * 100.0 <= 100.0
  {
  }

  /** A warehouse stocked past its capacity, which the schema accepts, shows more than 100%. */
  lemma UtilisationOverfull()
    ensures var w := Warehouse(0, "Depot", "Oslo", 10.0, 20.0, "Kari", "555", "operational", "u1", 0);
            ValidWarehouse(w) && Utilisation([w]) == 200.0
  {
    var w := Warehouse(0, "Depot", "Oslo", 10.0, 20.0, "Kari", "555", "operational", "u1", 0);
    TotalsAreSums([w]);
    assert [w][1..] == [];
  }

  /** `suppliers.slice(0, 5)`: the first five, or all when there are fewer. */
  function RecentSuppliers(ss: seq<Supplier>): (r: seq<Supplier>)
    ensures |r| == if |ss| < 5 then |ss| else 5
    ensures r == ss[..|r|]
    ensures r == [] <==> ss == []
  {
    Seqs.Prefix(ss, 5)
  }

  /** `warehouses.slice(0, 5)`. */
  function RecentWarehouses(ws: seq<Warehouse>): (r: seq<Warehouse>)
    ensures |r| == if |ws| < 5 then |ws| else 5
    ensures r == ws[..|r|]
    ensures r == [] <==> ws == []
  {
    Seqs.Prefix(ws, 5)
  }
}
