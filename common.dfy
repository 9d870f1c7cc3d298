/** Values shared by every part of the model: the optional-value wrapper, the
    byte type, and the return codes that wolfCLU and wolfSSL functions hand
    back to their callers.

    The numeric values of wolfCLU's own codes live in a header that is not part
    of this model. What the code relies on is fixed here: `main` turns every
    result `<= 0` into WOLFCLU_FATAL_ERROR and exits 0 only on WOLFCLU_SUCCESS,
    so WOLFCLU_SUCCESS is positive (1, like WOLFSSL_SUCCESS), WOLFCLU_FAILURE
    is 0 (like WOLFSSL_FAILURE), and the error codes are distinct negatives. */
module Common {

  datatype Option<T> = None | Some(value: T)

  type byte = x: int | 0 <= x < 256

  const WOLFSSL_SUCCESS: int := 1
  const WOLFSSL_FAILURE: int := 0

  const WOLFCLU_SUCCESS: int := 1
  const WOLFCLU_FAILURE: int := 0
  const WOLFCLU_FATAL_ERROR: int := -1
  const USER_INPUT_ERROR: int := -1001
  const INPUT_FILE_ERROR: int := -1002
  /** wolfSSL's allocation-failure code, also used by wolfCLU for a missing file. */
  const MEMORY_E: int := -125

  /** Encodings selected by -inform / -outform. */
  datatype Form = PemForm | DerForm | OtherForm

  /** Regrouping concatenations, stated once so that proofs about long
      sequences can name the step. */
  lemma Assoc<T>(a: seq<T>, b: seq<T>, c: seq<T>)
    ensures (a + b) + c == a + (b + c)
  {
  }

  lemma AppendAssoc<T>(a: seq<T>, b: seq<T>, c: seq<T>, d: seq<T>)
    ensures ((a + b) + c) + d == a + ((b + c) + d)
  {
  }
}
