/** What both graph programs share: C ints and adjacency lists of (neighbour, weight) pairs. */
module AdjacencyLists {

  const INT_MAX := 0x7fff_ffff
  const INT_MIN := -0x8000_0000

  type Adjacency = seq<seq<(nat, int)>>
}
