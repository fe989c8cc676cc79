/** The life cycle of a task, shared by the table of tasks and the scheduler. */
module TaskTypes {
  datatype TaskState = Unused | Ready | Running | Blocked | Dead
}
