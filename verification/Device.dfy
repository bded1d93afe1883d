/** The bits and registers behind the link. */
module Device {
  import opened Signals

  /** One unit: a value for every table and address. Bits are 0 or 1. */
  type Image = (Table, int) -> int

  /** All units. */
  type Memory = (int, Table, int) -> int

  function UnitImage(m: Memory, unit: int): Image { (t, a) => m(unit, t, a) }

  function ReadImage(img: Image, t: Table, address: int, n: nat): (data: seq<int>)
    ensures |data| == n && forall i :: 0 <= i < n ==> data[i] == img(t, address + i)
  {
    seq(n, i => img(t, address + i))
  }

  function Stored(m: Memory, unit: int, t: Table, address: int, cells: seq<int>): Memory {
    (u, tt, a) => if u == unit && tt == t && address <= a < address + |cells| then cells[a - address] else m(u, tt, a)
  }
}
