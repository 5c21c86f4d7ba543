/** Transactions as the services see them: staged work becomes visible on commit and vanishes on rollback. */
module Transactions {

  /** One database session: other sessions see `committed`, this one reads and writes `staged`. */
  class Session<Rows> {
    var committed: Rows
    var staged: Rows

    constructor (rows: Rows)
      ensures committed == rows && staged == rows
    {
      committed, staged := rows, rows;
    }

    method Commit()
      modifies this
      ensures committed == staged == old(staged)
    {
      committed := staged;
    }

    method Rollback()
      modifies this
      ensures committed == staged == old(committed)
    {
      staged := committed;
    }
  }
}
