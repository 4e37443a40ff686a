/** The placement-rule values the query parser produces. In the source these are aliases of types
    of the network-map package; here they are plain values. */
module Netmap {

  /** Go's uint32. */
  newtype uint32 = x: int | 0 <= x < 0x1_0000_0000

  const Uint32Modulus: int := 0x1_0000_0000

  /** The comparison a filter applies to a node attribute. */
  datatype Operation = EQ | NE | LT | LE | GT | GE

  /** Keep the nodes whose attribute `key` compares to `value` under `op`. */
  datatype Filter = Filter(key: string, op: Operation, value: string)

  /** Request `count` nodes grouped by attribute `key`. */
  datatype Select = Select(key: string, count: uint32)

  /** One SELECT clause with its selectors and optional filters, both in textual order. */
  datatype SFGroup = SFGroup(selectors: seq<Select>, filters: seq<Filter>)

  /** The parsed query: a replication factor and the groups in textual order. */
  datatype PlacementRule = PlacementRule(replFactor: uint32, groups: seq<SFGroup>)
}
