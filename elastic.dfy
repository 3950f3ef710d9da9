/** The one-dimensional elastic collision that two of the bouncing-balls
    demos apply along the line of centres, with its conservation laws. */
module ElasticCollision {
  import Numerics

  /** The one-dimensional elastic collision: masses `m1`, `m2` meeting with
      velocities `u1`, `u2` along the normal.  It keeps the momentum,
      reverses the relative velocity, and exchanges the velocities of equal
      masses. */
  function Elastic(m1: real, m2: real, u1: real, u2: real): (v: (real, real))
    requires m1 + m2 > 0.0
    ensures m1 * v.0 + m2 * v.1 == m1 * u1 + m2 * u2
    ensures v.1 - v.0 == u1 - u2
    ensures m1 == m2 ==> v == (u2, u1)
  {
    var total := m1 + m2;
    var v1 := ((m1 - m2) * u1 + 2.0 * m2 * u2) / total;
    var v2 := ((m2 - m1) * u2 + 2.0 * m1 * u1) / total;
    assert v1 * total == (m1 - m2) * u1 + 2.0 * m2 * u2;
    assert v2 * total == (m2 - m1) * u2 + 2.0 * m1 * u1;
    assert (m1 * v1 + m2 * v2) * total == (m1 * u1 + m2 * u2) * total;
    assert (v2 - v1) * total == (u1 - u2) * total;
    assert m1 == m2 ==> v1 == u2 && v2 == u1 by {
      if m1 == m2 {
        assert (v1 - u2) * total == 0.0 && (v2 - u1) * total == 0.0;
      }
    }
    (v1, v2)
  }

  /** The elastic collision keeps the kinetic energy along the normal. */
  lemma ElasticEnergy(m1: real, m2: real, u1: real, u2: real)
    requires m1 + m2 > 0.0
    ensures var v := Elastic(m1, m2, u1, u2);
      Numerics.Mul(m1, Numerics.Sq(v.0)) + Numerics.Mul(m2, Numerics.Sq(v.1))
        == Numerics.Mul(m1, Numerics.Sq(u1)) + Numerics.Mul(m2, Numerics.Sq(u2))
  {
    var v := Elastic(m1, m2, u1, u2);
    var v1, v2 := v.0, v.1;
    // m1 (v1 - u1) == -m2 (v2 - u2) and v1 + u1 == v2 + u2.
    assert m1 * (v1 - u1) == -(m2 * (v2 - u2));
    assert v1 + u1 == v2 + u2;
    calc {
      m1 * v1 * v1 - m1 * u1 * u1;
      m1 * (v1 - u1) * (v1 + u1);
      -(m2 * (v2 - u2)) * (v2 + u2);
      -(m2 * v2 * v2 - m2 * u2 * u2);
    }
  }

  /** The elastic velocity changes carry equal and opposite momentum. */
  lemma ElasticBalance(m1: real, m2: real, u1: real, u2: real)
    requires m1 + m2 > 0.0
    ensures Numerics.Mul(m1, Elastic(m1, m2, u1, u2).0 - u1) + Numerics.Mul(m2, Elastic(m1, m2, u1, u2).1 - u2) == 0.0
  {
  }
}
