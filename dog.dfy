/**
 * The `Dog` class of the classes-and-objects exercise: a name and an age
 * that setters overwrite in place, getters that read them, and two derived
 * members, the age in human years (seven per dog year) and the sound the
 * dog makes. The exercise file gives two alternative class bodies; the
 * class below follows the first, and the second's derived members are
 * modelled beside it and shown to agree with the first's.
 */
module Pets {
  import opened CppInt

  /** C++'s `age * 7` fits in a 32-bit `int` (signed overflow is undefined). */
  predicate HumanYearsFit(age: int) {
    InInt32(age * 7)
  }

  class Dog {
    var name: string
    var age: Int32

    /**
     * The C++ class has no constructor and leaves `age` indeterminate until
     * `set_age` is called; here the initial name and age are parameters,
     * so no default is assumed.
     */
    constructor (name0: string, age0: Int32)
      ensures name == name0 && age == age0
    {
      name := name0;
      age := age0;
    }

    /** `get_name()`: the stored name. */
    function GetName(): (n: string)
      reads this
      ensures n == name
    {
      name
    }

    /** `get_age()`: the stored age. */
    function GetAge(): (a: Int32)
      reads this
      ensures a == age
    {
      age
    }

    /** `set_name(n)`: overwrites the name and nothing else. */
    method SetName(n: string)
      modifies this`name
      ensures GetName() == n
      ensures GetAge() == old(GetAge())
    {
      name := n;
    }

    /** `set_age(a)`: overwrites the age and nothing else. */
    method SetAge(a: Int32)
      modifies this`age
      ensures GetAge() == a
      ensures GetName() == old(GetName())
    {
      age := a;
    }

    /**
     * `get_human_years()`, first version (`age * 7`): seven human years per
     * dog year, so the result is a multiple of 7 whose seventh is the age.
     */
    function GetHumanYears(): (years: Int32)
      reads this
      requires HumanYearsFit(age)
      ensures years % 7 == 0 && years / 7 == GetAge()
    {
      age * 7
    }

    /** `get_human_years()`, second version (`get_age() * 7`). */
    function HumanYearsViaGetter(): (years: Int32)
      reads this
      requires HumanYearsFit(GetAge())
      ensures years % 7 == 0 && years / 7 == GetAge()
    {
      GetAge() * 7
    }

    /** `speak()`, first version (`string("Woof")`): reads no field, so the state cannot affect it. */
    function Speak(): (sound: string)
      ensures sound == "Woof"
    {
      "Woof"
    }

    /**
     * `speak()`, second version, which returns the literal `"Woof"` and
     * relies on the implicit conversion from `const char*`. The first
     * version builds `string("Woof")` explicitly. Both C++ forms produce
     * the same `std::string`, so in this model the two bodies coincide.
     */
    function SpeakLiteral(): (sound: string)
      ensures sound == "Woof"
    {
      "Woof"
    }
  }

  /** The two alternative class bodies derive the same results from every state. */
  lemma VariantsAgree(d: Dog)
    requires HumanYearsFit(d.age)
    ensures d.GetHumanYears() == d.HumanYearsViaGetter()
    ensures d.Speak() == d.SpeakLiteral()
  {
  }

  /**
   * After `set_age(a)` the human years follow the new age, whatever the
   * name and the previous age were, and `speak` is unaffected.
   */
  method AgeThenAsk(d: Dog, a: Int32) returns (years: Int32, sound: string)
    requires HumanYearsFit(a)
    modifies d
    ensures d.GetAge() == a && d.GetName() == old(d.GetName())
    ensures years == 7 * a && sound == "Woof"
  {
    d.SetAge(a);
    years := d.GetHumanYears();
    sound := d.Speak();
  }

  /** A three-year-old dog is 21 in human years and says "Woof". */
  method ThreeYearOldDog(name: string) returns (years: Int32, sound: string)
    ensures years == 21 && sound == "Woof"
  {
    var d := new Dog(name, 0);
    d.SetAge(3);
    years := d.GetHumanYears();
    sound := d.Speak();
  }
}
