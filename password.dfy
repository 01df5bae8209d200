/** The `Password` object of the multi-password API: a length and an options
    array fixed at construction, and two operations that hand them to the
    generator unchanged. */
module PasswordHolder {
  import opened Wrappers
  import opened PasswordGenerator

  class Password {
    var length: int
    var opts: OptionOverrides

    /** `new Password($length, $opts)`; the getters then answer the
        arguments. */
    constructor (length: int, opts: OptionOverrides)
      ensures GetLength() == length && GetOpts() == opts
    {
      this.length := length;
      this.opts := opts;
    }

    /** `generate()`: one `generate_password($this->length, $this->opts)`
        call, whose first oracle call is number k0. The object is left as
        it was (there is no `modifies` clause). */
    method Generate(stream: nat -> int, k0: nat) returns (r: Result<string, GenError>, k1: nat)
      ensures (r, k1) == PasswordGenerator.Generate(length, opts, stream, k0)
    {
      r, k1 := GeneratePassword(length, opts, stream, k0);
    }

    /** `generateMultiple($count)`: `generate_passwords($count,
        $this->length, $this->opts)`. */
    method GenerateMultiple(count: int, stream: nat -> int, k0: nat) returns (r: Result<seq<string>, GenError>, k1: nat)
      ensures (r, k1) == GenerateMany(count, length, opts, stream, k0)
    {
      r, k1 := GeneratePasswords(count, length, opts, stream, k0);
    }

    function GetLength(): int
      reads this
    {
      length
    }

    function GetOpts(): OptionOverrides
      reads this
    {
      opts
    }
  }
}
