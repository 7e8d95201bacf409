/** Applications of a job, as both the run protocol and its results know them. */
module Applications {
  /** An id, ordered as its text is. */
  datatype AppId = AppId(order: int)
}
