# Brazilian tax-ID validators (CPF and CNPJ)

This project models the two checksum validators of the account-management
service: `ClienteService.validateCpf`, which checks a CPF (an individual's
11-digit taxpayer number), and `EmpresaService.validateCnpj`, which checks a
CNPJ (a company's 14-digit taxpayer number). Both follow the Receita Federal
modulo-11 scheme. Each validator strips every character that is not an ASCII
digit, checks the digit count, computes two check digits from weighted sums
and compares them with the last two stored digits.

Modules:

- `Digits` (`digits.dfy`): digit characters and the "remove every non-digit"
  clean-up (`replaceAll("\\D", "")`), as a recursive function `DigitsOnly`
  and as the loop `StripNonDigits`.
- `CheckDigits` (`checkdigits.dfy`): the weighted sum over a range of digits,
  and the two spellings of the modulo-11 reduction. `CheckDigit` is the CPF
  spelling `11 - sum % 11`, where 10 and 11 become 0. `CheckChar` is the CNPJ
  spelling, `'0'` for a remainder of 0 or 1.
- `Cpf` (`cpf.dfy`): the reference predicate `IsValidCpf`, stated with the
  published weight tables 10..2 and 11..2. `ValidateCpf` follows the
  service's steps: strip, length check, the `(\d)\1{10}` repeated-digit check,
  two ascending loops with weights `10 - i` and `11 - i`, and the comparison.
  It is proved to return exactly `IsValidCpf`.
- `Cnpj` (`cnpj.dfy`): the reference predicate `IsValidCnpj`, stated with the
  published tables 5,4,3,2,9,..,2 and 6,5,4,3,2,9,..,2. `ValidateCnpj`
  follows the service's steps: strip, length check, and two descending scans
  whose weight counts 2..9 and wraps from 10 back to 2. It is proved to return
  exactly `IsValidCnpj`.

The reference predicates and the loop methods are written independently of
each other: tables read left to right on one side, and the service's index
arithmetic or wrapping counter on the other. The `ensures ok == IsValid…` of
each method is the all-inputs link between them.

## Model

| member | source | states |
|---|---|---|
| Digits.DigitValue | src/main/java/teste/tgid_bruno/services/ClienteService.java:37 | the value of a digit character (`cpf.charAt(i) - '0'`, also `cnpj.charAt(i) - 48` at EmpresaService.java lines 41 and 60) is at most 9 |
| Digits.DigitChar | src/main/java/teste/tgid_bruno/services/EmpresaService.java:53 | for v in 0..9, `(char) (v + 48)` (also at line 72) is a digit character whose value is v |
| Digits.DigitsOnly | src/main/java/teste/tgid_bruno/services/ClienteService.java:22 | the stripped string contains only the characters '0'..'9' and is no longer than the input |
| Digits.StripNonDigits | src/main/java/teste/tgid_bruno/services/EmpresaService.java:25 | the left-to-right scan that keeps digits yields exactly the digit subsequence `DigitsOnly` |
| Digits.DigitsOnlyKeepsDigits | src/main/java/teste/tgid_bruno/services/ClienteService.java:22 | a character occurs in the stripped string iff it is a digit occurring in the input |
| Digits.DigitsOnlyAppend | src/main/java/teste/tgid_bruno/services/EmpresaService.java:25 | stripping distributes over concatenation |
| Digits.DigitsOnlyOfDigits | src/main/java/teste/tgid_bruno/services/ClienteService.java:22 | a string of digits only is left unchanged by stripping |
| Digits.DigitsOnlyDropsNonDigit | src/main/java/teste/tgid_bruno/services/ClienteService.java:22 | deleting one non-digit character anywhere in the input leaves its digits unchanged |
| Digits.DigitsOnlyIdempotent | src/main/java/teste/tgid_bruno/services/EmpresaService.java:25 | stripping twice is the same as stripping once |
| CheckDigits.WeightedSumExtend | src/main/java/teste/tgid_bruno/services/ClienteService.java:35-38 | accumulating one more digit on the right adds exactly that digit times its weight, which is what each loop step does |
| CheckDigits.WeightedSumOfRepeated | src/main/java/teste/tgid_bruno/services/ClienteService.java:30-32 | over a run of one repeated digit the weighted sum is that digit times the total weight |
| CheckDigits.CheckDigit | src/main/java/teste/tgid_bruno/services/ClienteService.java:39-42 | the CPF check digit lies in 0..9; when the remainder is at least 2 it brings the sum to a multiple of 11; when the remainder is 0 or 1 it is 0 |
| CheckDigits.CheckChar | src/main/java/teste/tgid_bruno/services/EmpresaService.java:49-54 | the CNPJ check character is always a digit '0'..'9'; its value completes the sum to a multiple of 11 when the remainder is at least 2; it is '0' when the remainder is 0 or 1 |
| CheckDigits.ReductionsAgree | src/main/java/teste/tgid_bruno/services/EmpresaService.java:68-73 | the CNPJ rule `r < 2 ? '0' : '0' + (11 - r)` is the character of the CPF rule `11 - r`, with 10 and 11 mapped to 0 |
| Cpf.FirstWeightsDescend | src/main/java/teste/tgid_bruno/services/ClienteService.java:36-38 | the published first table gives digit i the weight 10 - i used by the loop |
| Cpf.SecondWeightsDescend | src/main/java/teste/tgid_bruno/services/ClienteService.java:46-48 | the published second table gives digit i the weight 11 - i used by the loop |
| Cpf.MatchesRepeatedDigit | src/main/java/teste/tgid_bruno/services/ClienteService.java:30-32 | the scan reports true iff the string is eleven copies of one digit, the language of `(\d)\1{10}` |
| Cpf.ValidateCpf | src/main/java/teste/tgid_bruno/services/ClienteService.java:19-56 | on every input, no precondition and every index in bounds, the service's steps return exactly the reference verdict `IsValidCpf` |
| Cpf.CpfIgnoresNonDigit | src/main/java/teste/tgid_bruno/services/ClienteService.java:22 | inserting any non-digit character anywhere does not change the verdict |
| Cpf.CpfDependsOnlyOnDigits | src/main/java/teste/tgid_bruno/services/ClienteService.java:22 | the verdict on the raw string equals the verdict on its digit subsequence |
| Cpf.CpfRejectsMalformed | src/main/java/teste/tgid_bruno/services/ClienteService.java:25-32 | a digit count other than 11, or eleven copies of one digit, is rejected |
| Cpf.CheckDigitsOfRepeated | src/main/java/teste/tgid_bruno/services/ClienteService.java:39-52 | for every digit v, the check digits of the sums 54·v and 65·v (the table totals times v) are v |
| Cpf.TableTotals | src/main/java/teste/tgid_bruno/services/ClienteService.java:35-48 | the two weight tables total 54 and 65 |
| Cpf.RepeatedDigitsPassChecksums | src/main/java/teste/tgid_bruno/services/ClienteService.java:29-55 | every one of the ten repeated-digit strings passes both checksums, so only the repeated-digit guard rejects them |
| Cpf.CpfExampleDigits | src/test/java/teste/tgid_bruno/services/ClienteServiceTest.java:37 | "48247281856" is accepted |
| Cpf.CpfExampleValid | src/test/java/teste/tgid_bruno/services/ClienteServiceTest.java:37-42 | "482.472818-56" is accepted |
| Cpf.CpfExampleWrongCheckDigit | src/test/java/teste/tgid_bruno/services/ClienteServiceTest.java:38-43 | "123.456.789-10" is rejected: its first check digit is 0, not the stored 1 |
| Cpf.CpfExamplesMalformed | src/test/java/teste/tgid_bruno/services/ClienteServiceTest.java:39-45 | "123.456.789" (nine digits) and "11111111111" (one digit repeated) are rejected |
| CheckDigits.CheckCharUnique | src/main/java/teste/tgid_bruno/services/EmpresaService.java:49-54 | any digit character that completes the sum to a multiple of 11 (or is '0' for remainder 0 or 1) is the check character, so the characterization of the reduction is complete |
| Cnpj.CycleWeight | src/main/java/teste/tgid_bruno/services/EmpresaService.java:38-47 | the weight of every scan step lies in 2..9 |
| Cnpj.CycleWeightNext | src/main/java/teste/tgid_bruno/services/EmpresaService.java:43-46 | the update "add one, wrap 10 to 2" advances the closed-form weight `2 + k % 8` by one step |
| Cnpj.TablesAreCyclic | src/main/java/teste/tgid_bruno/services/EmpresaService.java:40-66 | the published tables give index i the weight `2 + (11 - i) % 8` in the first pass and `2 + (12 - i) % 8` in the second |
| Cnpj.ScanSum | src/main/java/teste/tgid_bruno/services/EmpresaService.java:38-47 | the right-to-left scan with the wrapping weight computes the left-to-right weighted sum of the table its weights form |
| Cnpj.CheckCharOf | src/main/java/teste/tgid_bruno/services/EmpresaService.java:49-54 | the service's branch on the remainder yields a digit character; when the remainder is at least 2 its value completes the sum to a multiple of 11, and otherwise it is '0' |
| Cnpj.ValidateCnpj | src/main/java/teste/tgid_bruno/services/EmpresaService.java:23-84 | on every input, no precondition and every index in bounds, the service's steps return exactly the reference verdict `IsValidCnpj` |
| Cnpj.CnpjIgnoresNonDigit | src/main/java/teste/tgid_bruno/services/EmpresaService.java:25 | inserting any non-digit character anywhere does not change the verdict |
| Cnpj.CnpjDependsOnlyOnDigits | src/main/java/teste/tgid_bruno/services/EmpresaService.java:25 | the verdict on the raw string equals the verdict on its digit subsequence |
| Cnpj.CnpjRejectsWrongLength | src/main/java/teste/tgid_bruno/services/EmpresaService.java:28-30 | a digit count other than 14 is rejected |
| Cnpj.CnpjAcceptsAllZeros | src/main/java/teste/tgid_bruno/services/EmpresaService.java:36-80 | any input whose digits are fourteen zeros is accepted, because there is no repeated-digit guard |
| Cnpj.CnpjExampleDigits | src/test/java/teste/tgid_bruno/services/EmpresaServiceTest.java:58 | "12345678000195" is accepted |
| Cnpj.CnpjExampleValid | src/test/java/teste/tgid_bruno/services/EmpresaServiceTest.java:58-62 | "12.345.678/0001-95" is accepted |
| Cnpj.CnpjExamplesInvalid | src/test/java/teste/tgid_bruno/services/EmpresaServiceTest.java:59-64 | the 15-digit "123456789101213" and the 14-digit "12345678910121" are rejected |

## Left out

- Credit and debit of a company's balance: the service class modelled here
  defines neither operation, and the balance arithmetic is `double`/`float`.
- `newCliente`, `newEmpresa` and the `findBy*` lookups: persistence code.
  They are repository pass-throughs, except that `newEmpresa` also returns
  null for an already-registered CNPJ and sets the default balance 0.0 and
  fee rate 0.05 before saving.
- Controllers, the exception handler, entities, repositories, DTOs and the
  OpenAPI configuration: HTTP, persistence and framework wiring.
- The `try`/`catch InputMismatchException` around the CNPJ computation: after
  the length check nothing in the block can raise it, so the model is total
  and has no error path.
- A `null` argument: Java would throw on `replaceAll`; the model takes a
  character sequence, which is never null.
- Java strings are sequences of UTF-16 code units, while a Dafny `char` is a
  Unicode scalar value. Only the ASCII digits matter to both validators, so
  the difference does not change any verdict.
- Java `int` overflow: no weighted sum exceeds 9 × 65, so the unbounded
  integers of the model agree with 32-bit arithmetic. The sums are never
  negative, so Java's truncating `%` and Dafny's `%` also agree.
