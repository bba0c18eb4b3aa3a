/** Sizes and addresses the kernel is compiled with. */
module Layout {

  type Positive = n: int | n > 0 witness 20

  /** Size of the PCB table and of the semaphore descriptor table, kept symbolic. */
  const MAXPROC: Positive

  /** The null pointer, where a pointer is an index into one of the static tables. */
  const NULL: int := -1

  /** Key of the dummy descriptor that closes the active semaphore list. */
  const MAXINT: int := 0xFFFF_FFFF

  /** sizeof(dev_sem_list_t): the timer word and a 6 by 8 matrix of words. */
  const DEV_SEM_SIZE: int := 4 + 6 * 8 * 4

  type Base = b: int | 0 < b && b + 196 < 0xFFFF_FFFF witness 4

  /** Where the linker puts the device semaphores. */
  const DEV_SEM: Base

  const SYS_TIMER: int := DEV_SEM

  /** &dev_sem->sem_mat[row][col]. */
  function SemMat(row: int, col: int): int {
    DEV_SEM + 4 + 4 * (8 * row + col)
  }

  predicate IsDevSem(address: int) {
    DEV_SEM <= address < DEV_SEM + DEV_SEM_SIZE
  }

  /** An address `P` and `V` may be given: not null and below the closing sentinel. */
  predicate IsSemAddress(address: int) {
    0 < address < MAXINT
  }

  /** Every cell of the matrix lies inside the device semaphores, and distinct cells have distinct addresses. */
  lemma SemMatIsInjective(row: int, col: int, row': int, col': int)
    requires 0 <= row < 6 && 0 <= col < 8 && 0 <= row' < 6 && 0 <= col' < 8
    ensures IsDevSem(SemMat(row, col)) && IsSemAddress(SemMat(row, col))
    ensures SemMat(row, col) != SYS_TIMER
    ensures SemMat(row, col) == SemMat(row', col') ==> row == row' && col == col'
  {}
}
