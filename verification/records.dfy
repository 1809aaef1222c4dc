/** The records kept by the two collaborator services that the group-join flow
    reads and writes: the Grouping service's groups and the Broadcast service's
    open invitations. */
module Records {

  /** A row of the Grouping service. `status` is the integer flag the handler
      writes: 0 while the group is still looking for members, 1 once it is
      complete. */
  datatype Group = Group(noOfPax: int, description: string, status: int)

  /** A row of the Broadcast service, stored under the id of the group that
      issued it. `lfPax` is how many more people the host group is looking for. */
  datatype Broadcast = Broadcast(lfPax: int, description: string, status: int)

  const Seeking: int := 0
  const Complete: int := 1

  /** The Grouping service's table: its rows by id, and the id the next created
      row receives (the table's auto-increment counter). */
  datatype GroupTable = GroupTable(rows: map<nat, Group>, nextId: nat)

  /** Both collaborator stores together; the broadcast map is keyed by the id of
      the host group. */
  datatype Stores = Stores(groups: GroupTable, broadcasts: map<nat, Broadcast>)

  /** The consistency the stores are meant to keep: every row id was handed out
      by the counter, every group holds at least one person, and an open
      broadcast is still looking for at least one person. */
  predicate Wellformed(s: Stores) {
    && (forall id :: id in s.groups.rows ==> id < s.groups.nextId && s.groups.rows[id].noOfPax >= 1)
    && (forall id :: id in s.broadcasts ==> s.broadcasts[id].lfPax > 0)
  }
}
